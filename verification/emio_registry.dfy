/**
 * The device bookkeeping of emioapi/emioapi.py: the class-level dictionary
 * `_emio_list` from device name (the motors' serial port) to the `EmioAPI`
 * object using it, the used/unused listings, `connectToEmioDevice` and
 * `disconnect`. Device and camera enumeration and the motors' and camera's
 * `open` are collaborators whose results are parameters.
 */
module EmioRegistry {
  import opened Outcomes

  // ---------------------------------------------------------------------
  // Listings
  // ---------------------------------------------------------------------

  /** The listed devices that are not in use, in list order. */
  function Unused(devices: seq<string>, used: set<string>): (r: seq<string>)
    ensures forall d :: d in r <==> d in devices && d !in used
    ensures |r| <= |devices|
    ensures |devices| == 1 ==> r == if devices[0] in used then [] else devices
  {
    if devices == [] then []
    else (if devices[0] in used then [] else [devices[0]]) + Unused(devices[1..], used)
  }

  /** The listed devices that are in use, in list order. */
  function Used(devices: seq<string>, used: set<string>): (r: seq<string>)
    ensures forall d :: d in r <==> d in devices && d in used
  {
    if devices == [] then []
    else (if devices[0] in used then [devices[0]] else []) + Used(devices[1..], used)
  }

  /**
   * The listing keeps the enumeration's order: the unused devices of a
   * list made of two parts are those of the first part followed by those
   * of the second. With the single-device case above, this determines the
   * listing completely.
   */
  lemma {:induction false} UnusedConcat(a: seq<string>, b: seq<string>, used: set<string>)
    ensures Unused(a + b, used) == Unused(a, used) + Unused(b, used)
  {
    if a == [] {
      assert a + b == b;
    } else {
      assert (a + b)[1..] == a[1..] + b;
      UnusedConcat(a[1..], b, used);
    }
  }

  /** Each listed device is listed exactly once as used or as unused. */
  lemma {:induction false} UsedUnusedPartition(devices: seq<string>, used: set<string>)
    ensures |Unused(devices, used)| + |Used(devices, used)| == |devices|
  {
    if devices != [] {
      UsedUnusedPartition(devices[1..], used);
    }
  }

  /** The first unused device is the first listed device that is not in use. */
  lemma {:induction false} FirstUnused(devices: seq<string>, used: set<string>)
    requires |Unused(devices, used)| > 0
    ensures exists k :: 0 <= k < |devices| && devices[k] == Unused(devices, used)[0] &&
                        forall j :: 0 <= j < k ==> devices[j] in used
  {
    if devices[0] in used {
      FirstUnused(devices[1..], used);
      var k :| 0 <= k < |devices[1..]| && devices[1..][k] == Unused(devices[1..], used)[0] &&
               forall j :: 0 <= j < k ==> devices[1..][j] in used;
      assert devices[k + 1] == Unused(devices, used)[0];
      forall j | 0 <= j < k + 1 ensures devices[j] in used {
        if j > 0 { assert devices[j] == devices[1..][j - 1]; }
      }
    } else {
      assert devices[0] == Unused(devices, used)[0];
    }
  }

  /** With nothing in use every listed device is unused, in the same order. */
  lemma {:induction false} NothingUsed(devices: seq<string>, used: set<string>)
    requires forall i :: 0 <= i < |devices| ==> devices[i] !in used
    ensures Unused(devices, used) == devices
  {
    if devices != [] {
      NothingUsed(devices[1..], used);
    }
  }

  /** The name `connectToEmioDevice` goes on with: the given one, or else the first unused device if any. */
  function ChooseDevice(name: Option<string>, devices: seq<string>, used: set<string>): (c: Option<string>)
    ensures name.Some? ==> c == name
    ensures name.None? ==> (c.None? <==> forall d :: d in devices ==> d in used)
    ensures name.None? && c.Some? ==> c.value in devices && c.value !in used
  {
    if name.Some? then name
    else if |Unused(devices, used)| > 0 then
      assert Unused(devices, used)[0] in Unused(devices, used);
      Some(Unused(devices, used)[0])
    else None
  }

  /** `list.index`: the first position of a name, or `ValueError` when it is not listed (`None` never is). */
  function IndexOf(devices: seq<string>, name: Option<string>): (r: Outcome<nat>)
    ensures r.Raised? <==> name.None? || name.value !in devices
    ensures r.Raised? ==> r.error == ValueError
    ensures r.Returned? ==> r.value < |devices| && devices[r.value] == name.value &&
                            forall j :: 0 <= j < r.value ==> devices[j] != name.value
  {
    if name.None? || devices == [] then Raised(ValueError)
    else if devices[0] == name.value then Returned(0)
    else match IndexOf(devices[1..], name)
      case Raised(e) => Raised(e)
      case Returned(i) => Returned(i + 1)
  }

  /**
   * Without a name, `connectToEmioDevice` goes on with the first listed
   * device that is not in use, at that device's own index.
   */
  lemma DefaultDeviceIsFirstUnused(devices: seq<string>, used: set<string>)
    requires exists d :: d in devices && d !in used
    ensures var i := IndexOf(devices, ChooseDevice(None, devices, used));
            && i.Returned?
            && devices[i.value] !in used
            && forall j :: 0 <= j < i.value ==> devices[j] in used
  {
    var d :| d in devices && d !in used;
    assert d in Unused(devices, used);
    FirstUnused(devices, used);
    var k :| 0 <= k < |devices| && devices[k] == Unused(devices, used)[0] &&
             forall j :: 0 <= j < k ==> devices[j] in used;
    var i := IndexOf(devices, ChooseDevice(None, devices, used)).value;
    assert devices[i] == Unused(devices, used)[0];
  }

  /** Without a name and with every listed device in use, `connectToEmioDevice` raises `ValueError`. */
  lemma NoFreeDeviceRaises(devices: seq<string>, used: set<string>)
    requires forall d :: d in devices ==> d in used
    ensures IndexOf(devices, ChooseDevice(None, devices, used)) == Raised(ValueError)
  {
  }

  // ---------------------------------------------------------------------
  // The dictionary's keys
  // ---------------------------------------------------------------------

  predicate Distinct(names: seq<string>) {
    forall i, j :: 0 <= i < j < |names| ==> names[i] != names[j]
  }

  /** The keys after `d[name] = v`: a new key goes last, an existing one keeps its place. */
  function Inserted(names: seq<string>, name: string): (r: seq<string>)
    ensures Distinct(names) ==> Distinct(r)
    ensures forall n :: n in r <==> n in names || n == name
  {
    if name in names then names else names + [name]
  }

  /** The keys after `d.pop(name, None)`: the others, in the same order. */
  function Removed(names: seq<string>, name: string): (r: seq<string>)
    ensures forall n :: n in r <==> n in names && n != name
    ensures |r| <= |names|
  {
    if names == [] then []
    else (if names[0] == name then [] else [names[0]]) + Removed(names[1..], name)
  }

  /** The remaining keys stay distinct. */
  lemma {:induction false} RemovedDistinct(names: seq<string>, name: string)
    requires Distinct(names)
    ensures Distinct(Removed(names, name))
  {
    if names != [] {
      RemovedDistinct(names[1..], name);
      var tail := Removed(names[1..], name);
      assert names[0] !in names[1..];
      assert names[0] !in tail;
    }
  }

  /** Popping a name twice is popping it once. */
  lemma {:induction false} RemovedIdempotent(names: seq<string>, name: string)
    ensures Removed(Removed(names, name), name) == Removed(names, name)
  {
    if names != [] {
      RemovedIdempotent(names[1..], name);
      if names[0] != name {
        var r := Removed(names, name);
        assert r == [names[0]] + Removed(names[1..], name);
        assert r[0] == names[0] && r[1..] == Removed(names[1..], name);
        assert Removed(r, name) == [names[0]] + Removed(r[1..], name);
      } else {
        assert Removed(names, name) == [] + Removed(names[1..], name) == Removed(names[1..], name);
      }
    }
  }

  /** Popping an absent name changes nothing. */
  lemma {:induction false} RemovedAbsent(names: seq<string>, name: string)
    requires name !in names
    ensures Removed(names, name) == names
  {
    if names != [] {
      RemovedAbsent(names[1..], name);
    }
  }

  // ---------------------------------------------------------------------
  // The classes
  // ---------------------------------------------------------------------

  /**
   * `EmioAPI._emio_list`, shared by every `EmioAPI` object: the keys in
   * insertion order and the object each name is held by.
   */
  class DeviceTable {
    var names: seq<string>
    var owners: map<string, EmioApi>

    ghost predicate Valid()
      reads this
    {
      Distinct(names) && forall n :: n in owners <==> n in names
    }

    constructor ()
      ensures Valid() && names == [] && owners == map[]
    {
      names := [];
      owners := map[];
    }

    /** `listUsedEmioDevices`: the dictionary's keys, each once, in insertion order. */
    function ListUsedEmioDevices(): (r: seq<string>)
      reads this
      requires Valid()
      ensures Distinct(r) && forall n :: n in r <==> n in owners
    {
      names
    }

    /** `listUnusedEmioDevices`: the listed devices not in the dictionary, in list order. */
    function ListUnusedEmioDevices(devices: seq<string>): (r: seq<string>)
      reads this
      ensures r == Unused(devices, owners.Keys)
      ensures forall d :: d in r <==> d in devices && d !in owners
      ensures |r| + |Used(devices, owners.Keys)| == |devices|
    {
      UsedUnusedPartition(devices, owners.Keys);
      Unused(devices, owners.Keys)
    }

    /** `_emio_list[name] = api`. */
    method Register(name: string, api: EmioApi)
      requires Valid()
      modifies this
      ensures Valid()
      ensures names == Inserted(old(names), name) && owners == old(owners)[name := api]
    {
      names := Inserted(names, name);
      owners := owners[name := api];
    }

    /** `_emio_list.pop(name, None)`: the entry goes if present; an absent name is no error. */
    method Pop(name: string)
      requires Valid()
      modifies this
      ensures Valid()
      ensures names == Removed(old(names), name) && owners == old(owners) - {name}
    {
      RemovedDistinct(names, name);
      names := Removed(names, name);
      owners := owners - {name};
    }
  }

  /**
   * An `EmioAPI` object: the shared dictionary, the index of the device it
   * chose, and the port its motors opened and the serial its camera
   * opened. The motors keep the name they were opened with.
   */
  class EmioApi {
    const table: DeviceTable
    var deviceIndex: Option<nat>
    var motorsDevice: Option<string>
    var cameraSerial: Option<string>

    constructor (t: DeviceTable)
      ensures table == t && deviceIndex.None? && motorsDevice.None? && cameraSerial.None?
    {
      table := t;
      deviceIndex := None;
      motorsDevice := None;
      cameraSerial := None;
    }

    /**
     * `connectToEmioDevice` with the listed ports `devices`, the listed
     * cameras `cameras`, and whether the motors' and the camera's `open`
     * succeed. The device's index is looked up in the list (`ValueError`
     * when absent), the camera at the same index is used (`IndexError` when
     * there is none), the device is registered once the motors open, and
     * the result is true only when the camera opens too.
     */
    method ConnectToEmioDevice(deviceName: Option<string>, devices: seq<string>, cameras: seq<string>,
                               motorsOpen: bool, cameraOpen: bool) returns (r: Outcome<bool>)
      requires table.Valid()
      modifies this, table
      ensures table.Valid()
      ensures var name := ChooseDevice(deviceName, devices, old(table.owners).Keys);
              && (r == Raised(ValueError) <==> IndexOf(devices, name).Raised?)
              && (IndexOf(devices, name).Returned? ==> deviceIndex == Some(IndexOf(devices, name).value))
              && (r == Raised(IndexError) <==> IndexOf(devices, name).Returned? && IndexOf(devices, name).value >= |cameras|)
              && (r.Returned? ==> (r.value <==> motorsOpen && cameraOpen))
              && (r.Returned? && motorsOpen ==>
                    && table.names == Inserted(old(table.names), name.value)
                    && table.owners == old(table.owners)[name.value := this]
                    && motorsDevice == name)
              && (r.Returned? && cameraOpen && motorsOpen ==> cameraSerial == Some(cameras[IndexOf(devices, name).value]))
              && (!(r.Returned? && motorsOpen) ==>
                    table.names == old(table.names) && table.owners == old(table.owners) && motorsDevice == old(motorsDevice))
      ensures r == Raised(ValueError) ==> deviceIndex == old(deviceIndex)
      ensures r != Returned(true) ==> cameraSerial == old(cameraSerial)
    {
      var name := deviceName;
      if name.None? {
        var unused := table.ListUnusedEmioDevices(devices);
        name := if |unused| > 0 then Some(unused[0]) else None;
      }
      var index := IndexOf(devices, name);
      if index.Raised? {
        return Raised(index.error);
      }
      deviceIndex := Some(index.value);
      if index.value >= |cameras| {
        return Raised(IndexError);
      }
      var serial := cameras[index.value];
      if motorsOpen {
        motorsDevice := name;
        table.Register(name.value, this);
        if cameraOpen {
          cameraSerial := Some(serial);
          return Returned(true);
        }
      }
      return Returned(false);
    }

    /** `disconnect`: the motors' port leaves the dictionary, whoever holds it; nothing changes when it is absent. */
    method Disconnect()
      requires table.Valid()
      modifies table
      ensures table.Valid()
      ensures motorsDevice.None? ==> table.names == old(table.names) && table.owners == old(table.owners)
      ensures motorsDevice.Some? ==>
                table.names == Removed(old(table.names), motorsDevice.value) &&
                table.owners == old(table.owners) - {motorsDevice.value}
    {
      if motorsDevice.Some? {
        table.Pop(motorsDevice.value);
      }
    }
  }
}
