/**
 * The `MotorGroup` class of emioapi/motorgroup.py: the four-byte encoding of
 * a value sent to the Dynamixel motors, the all-or-nothing group read, the
 * group write, the operating-mode and torque writes, and the `connected`
 * flag that `open` clears. The Dynamixel bus is abstract: a group read is
 * its reply, a one-byte read is a function of the motor id, and each
 * one-byte write is recorded in the order it is sent.
 */
module MotorBus {
  import opened Outcomes

  // ---------------------------------------------------------------------
  // _valToArray
  // ---------------------------------------------------------------------

  /**
   * The SDK's byte and word helpers on Python integers: a mask keeps the low
   * bits and a right shift floors, so each is a floor division followed by
   * a non-negative remainder (Dafny's `/` and `%` by a positive constant).
   */
  function LoByte(w: int): int { w % 0x100 }
  function HiByte(w: int): int { (w / 0x100) % 0x100 }
  function LoWord(v: int): int { v % 0x1_0000 }
  function HiWord(v: int): int { (v / 0x1_0000) % 0x1_0000 }

  predicate IsByte(b: int) { 0 <= b < 0x100 }

  /** The value four bytes stand for, least significant first. */
  function LittleEndianValue(bs: seq<int>): int
    requires |bs| == 4
  {
    bs[0] + 0x100 * bs[1] + 0x1_0000 * bs[2] + 0x100_0000 * bs[3]
  }

  /**
   * `_valToArray`: the four bytes of a value's low 32 bits, least
   * significant first. A value outside 0 .. 2^32 - 1 wraps around.
   */
  function ValToArray(val: int): (bs: seq<int>)
    ensures |bs| == 4 && forall i :: 0 <= i < 4 ==> IsByte(bs[i])
  {
    [LoByte(LoWord(val)), HiByte(LoWord(val)), LoByte(HiWord(val)), HiByte(HiWord(val))]
  }

  /** A 16-bit word is its low byte plus 256 times its high byte. */
  lemma WordBytes(w: int)
    requires 0 <= w < 0x1_0000
    ensures LoByte(w) + 0x100 * HiByte(w) == w
  {
    assert w / 0x100 < 0x100;
  }

  /** A value's low 32 bits are its low word plus 65536 times its high word. */
  lemma {:induction false} ValueWords(v: int)
    ensures LoWord(v) + 0x1_0000 * HiWord(v) == v % 0x1_0000_0000
  {
    var q := v / 0x1_0000;
    var q2 := q / 0x1_0000;
    assert v == 0x1_0000 * q + LoWord(v);
    assert q == 0x1_0000 * q2 + HiWord(v);
    assert v == 0x1_0000_0000 * q2 + (LoWord(v) + 0x1_0000 * HiWord(v));
    ModOfDecomposition(v, q2, LoWord(v) + 0x1_0000 * HiWord(v));
  }

  lemma ModOfDecomposition(v: int, q: int, r: int)
    requires v == 0x1_0000_0000 * q + r && 0 <= r < 0x1_0000_0000
    ensures v % 0x1_0000_0000 == r
  {
  }

  /** The bytes `_valToArray` sends stand for the value modulo 2^32. */
  lemma ValToArrayValue(val: int)
    ensures LittleEndianValue(ValToArray(val)) == val % 0x1_0000_0000
  {
    WordBytes(LoWord(val));
    WordBytes(HiWord(val));
    ValueWords(val);
  }

  /** A value in 0 .. 2^32 - 1 is recovered from its bytes. */
  lemma ValToArrayRoundTrip(val: int)
    requires 0 <= val < 0x1_0000_0000
    ensures LittleEndianValue(ValToArray(val)) == val
  {
    ValToArrayValue(val);
  }

  /** Four bytes are the encoding of the value they stand for. */
  lemma ValToArrayOfBytes(bs: seq<int>)
    requires |bs| == 4 && forall i :: 0 <= i < 4 ==> IsByte(bs[i])
    ensures ValToArray(LittleEndianValue(bs)) == bs
  {
    var v := LittleEndianValue(bs);
    var lo := bs[0] + 0x100 * bs[1];
    var hi := bs[2] + 0x100 * bs[3];
    assert v == 0x1_0000 * hi + lo;
    assert LoWord(v) == lo && HiWord(v) == hi by {
      assert v / 0x1_0000 == hi;
    }
    assert LoByte(lo) == bs[0] && HiByte(lo) == bs[1] by {
      assert lo / 0x100 == bs[1];
    }
    assert LoByte(hi) == bs[2] && HiByte(hi) == bs[3] by {
      assert hi / 0x100 == bs[3];
    }
  }

  /** Values that agree modulo 2^32 are sent as the same bytes. */
  lemma ValToArrayWraps(a: int, b: int)
    requires a % 0x1_0000_0000 == b % 0x1_0000_0000
    ensures ValToArray(a) == ValToArray(b)
  {
    ValToArrayValue(a);
    ValToArrayValue(b);
    ValToArrayOfBytes(ValToArray(a));
    ValToArrayOfBytes(ValToArray(b));
  }

  // ---------------------------------------------------------------------
  // The bus
  // ---------------------------------------------------------------------

  /** The SDK's `COMM_SUCCESS` transaction result. */
  const CommSuccess: int := 0

  /**
   * What a group read's transaction brings back: its result code, whether
   * each motor's data arrived, and the data.
   */
  datatype ReadReply = ReadReply(commResult: int, available: int -> bool, data: int -> int)

  /** A one-byte write to a motor's control table. */
  datatype ByteWrite = ByteWrite(id: int, addr: int, value: int)

  /** The outcome `readMotorsData` describes: all the motors' data in id order, or nothing. */
  function GroupRead(ids: seq<int>, reply: ReadReply): (r: Option<seq<int>>)
    ensures r.None? <==> reply.commResult != CommSuccess || exists i :: 0 <= i < |ids| && !reply.available(ids[i])
    ensures r.Some? ==> |r.value| == |ids| && forall i :: 0 <= i < |ids| ==> r.value[i] == reply.data(ids[i])
  {
    if reply.commResult != CommSuccess || exists i :: 0 <= i < |ids| && !reply.available(ids[i]) then None
    else Some(seq(|ids|, i requires 0 <= i < |ids| => reply.data(ids[i])))
  }

  /** The parameters `__writeMotorsData` adds: each id with the bytes of the value at its index. */
  function WriteParams(ids: seq<int>, values: seq<int>): (ps: seq<(int, seq<int>)>)
    requires |values| >= |ids|
    ensures |ps| == |ids|
    ensures forall i :: 0 <= i < |ids| ==> ps[i] == (ids[i], ValToArray(values[i]))
  {
    seq(|ids|, i requires 0 <= i < |ids| => (ids[i], ValToArray(values[i])))
  }

  /** The mode writes `setOperatingMode` sends: to each motor, in order, whose mode reads differently. */
  function ModeWrites(ids: seq<int>, modeOf: int -> int, addr: int, mode: int): (ws: seq<ByteWrite>)
    ensures |ws| <= |ids|
  {
    if ids == [] then []
    else (if modeOf(ids[0]) != mode then [ByteWrite(ids[0], addr, mode)] else []) + ModeWrites(ids[1..], modeOf, addr, mode)
  }

  /**
   * Every mode write goes to a listed motor whose mode differs and sets
   * the requested mode at the operating-mode address; every listed motor
   * whose mode differs gets one.
   */
  lemma {:induction false} ModeWritesExactly(ids: seq<int>, modeOf: int -> int, addr: int, mode: int)
    ensures forall w :: w in ModeWrites(ids, modeOf, addr, mode) ==>
              w.id in ids && modeOf(w.id) != mode && w.addr == addr && w.value == mode
    ensures forall id :: id in ids && modeOf(id) != mode ==> ByteWrite(id, addr, mode) in ModeWrites(ids, modeOf, addr, mode)
  {
    if ids != [] {
      ModeWritesExactly(ids[1..], modeOf, addr, mode);
      var head := if modeOf(ids[0]) != mode then [ByteWrite(ids[0], addr, mode)] else [];
      assert ModeWrites(ids, modeOf, addr, mode) == head + ModeWrites(ids[1..], modeOf, addr, mode);
      forall id | id in ids && modeOf(id) != mode
        ensures ByteWrite(id, addr, mode) in ModeWrites(ids, modeOf, addr, mode)
      {
        if id != ids[0] {
          assert id in ids[1..];
        }
      }
    }
  }

  /** Once every motor is in the requested mode, `setOperatingMode` writes nothing. */
  lemma {:induction false} ModeWritesNoneWhenSet(ids: seq<int>, modeOf: int -> int, addr: int, mode: int)
    requires forall i :: 0 <= i < |ids| ==> modeOf(ids[i]) == mode
    ensures ModeWrites(ids, modeOf, addr, mode) == []
  {
    if ids != [] {
      ModeWritesNoneWhenSet(ids[1..], modeOf, addr, mode);
    }
  }

  /** The torque writes `enableTorque` sends: the enable value to each motor, in order. */
  function TorqueWrites(ids: seq<int>, addr: int, enable: int): (ws: seq<ByteWrite>)
    ensures |ws| == |ids|
    ensures forall i :: 0 <= i < |ids| ==> ws[i] == ByteWrite(ids[i], addr, enable)
  {
    seq(|ids|, i requires 0 <= i < |ids| => ByteWrite(ids[i], addr, enable))
  }

  /**
   * The SDK's `GroupSyncWrite` as far as `__writeMotorsData` uses it: the
   * parameters added since the last clear, and the packets transmitted.
   */
  class GroupSyncWrite {
    var params: seq<(int, seq<int>)>
    var sent: seq<seq<(int, seq<int>)>>

    constructor ()
      ensures params == [] && sent == []
    {
      params := [];
      sent := [];
    }

    method ClearParam()
      modifies this
      ensures params == [] && sent == old(sent)
    {
      params := [];
    }

    method AddParam(id: int, data: seq<int>)
      modifies this
      ensures params == old(params) + [(id, data)] && sent == old(sent)
    {
      params := params + [(id, data)];
    }

    method TxPacket()
      modifies this
      ensures params == old(params) && sent == old(sent) + [params]
    {
      sent := sent + [params];
    }
  }

  /** A group of motors on one port: the ids and control-table settings it uses, and the bus state. */
  class MotorGroup {
    const dxlIds: seq<int>
    const addrOperatingMode: int
    const addrTorqueEnable: int
    const torqueEnable: int
    var connected: bool
    /** The one-byte writes sent so far, in order. */
    var byteWrites: seq<ByteWrite>

    /** A new group counts as connected until `open` fails. */
    constructor (ids: seq<int>, operatingModeAddr: int, torqueEnableAddr: int, enable: int)
      ensures dxlIds == ids && addrOperatingMode == operatingModeAddr
      ensures addrTorqueEnable == torqueEnableAddr && torqueEnable == enable
      ensures connected && byteWrites == []
    {
      dxlIds := ids;
      addrOperatingMode := operatingModeAddr;
      addrTorqueEnable := torqueEnableAddr;
      torqueEnable := enable;
      connected := true;
      byteWrites := [];
    }

    /**
     * `readMotorsData`: `None` unless the transaction succeeds and every
     * motor's data is available; otherwise one value per id, in id order.
     */
    method ReadMotorsData(reply: ReadReply) returns (r: Option<seq<int>>)
      ensures r == GroupRead(dxlIds, reply)
    {
      if reply.commResult != CommSuccess {
        return None;
      }
      var result: seq<int> := [];
      for i := 0 to |dxlIds|
        invariant |result| == i
        invariant forall j :: 0 <= j < i ==> reply.available(dxlIds[j]) && result[j] == reply.data(dxlIds[j])
      {
        if !reply.available(dxlIds[i]) {
          return None;
        }
        result := result + [reply.data(dxlIds[i])];
      }
      assert result == seq(|dxlIds|, i requires 0 <= i < |dxlIds| => reply.data(dxlIds[i]));
      return Some(result);
    }

    /**
     * `__writeMotorsData`: clear the group's parameters, add each id with
     * the bytes of the value at its index, and transmit once. Fewer values
     * than ids raise `IndexError` after the parameters that could be added,
     * and nothing is transmitted.
     */
    method WriteMotorsData(group: GroupSyncWrite, values: seq<int>) returns (r: Outcome<()>)
      modifies group
      ensures r.Raised? <==> |values| < |dxlIds|
      ensures r.Raised? ==> r.error == IndexError && group.sent == old(group.sent)
      ensures r.Raised? ==> group.params == WriteParams(dxlIds[..|values|], values)
      ensures r.Returned? ==> group.params == WriteParams(dxlIds, values) && group.sent == old(group.sent) + [group.params]
    {
      group.ClearParam();
      for index := 0 to |dxlIds|
        invariant index <= |values| && group.sent == old(group.sent)
        invariant group.params == WriteParams(dxlIds[..index], values[..index])
      {
        if index >= |values| {
          assert dxlIds[..|values|] == dxlIds[..index] && values[..index] == values;
          return Raised(IndexError);
        }
        group.AddParam(dxlIds[index], ValToArray(values[index]));
        assert WriteParams(dxlIds[..index + 1], values[..index + 1]) ==
               WriteParams(dxlIds[..index], values[..index]) + [(dxlIds[index], ValToArray(values[index]))];
      }
      assert dxlIds[..|dxlIds|] == dxlIds;
      assert WriteParams(dxlIds, values[..|dxlIds|]) == WriteParams(dxlIds, values);
      group.TxPacket();
      return Returned(());
    }

    /**
     * `setOperatingMode`: nothing when not connected; otherwise the mode is
     * read from each motor in turn and written where it differs.
     */
    method SetOperatingMode(mode: int, modeOf: int -> int)
      modifies this
      ensures connected == old(connected)
      ensures byteWrites == old(byteWrites) + (if connected then ModeWrites(dxlIds, modeOf, addrOperatingMode, mode) else [])
    {
      if !connected {
        return;
      }
      for i := 0 to |dxlIds|
        invariant connected
        invariant byteWrites + ModeWrites(dxlIds[i..], modeOf, addrOperatingMode, mode) ==
                  old(byteWrites) + ModeWrites(dxlIds, modeOf, addrOperatingMode, mode)
      {
        assert dxlIds[i..][1..] == dxlIds[i + 1..];
        var value := modeOf(dxlIds[i]);
        if value != mode {
          byteWrites := byteWrites + [ByteWrite(dxlIds[i], addrOperatingMode, mode)];
        }
      }
    }

    /** `open`: a port that cannot be opened, or a baud rate that cannot be set, leaves the group disconnected for good. */
    method Open(openPortRaises: bool, setBaudRateRaises: bool)
      modifies this
      ensures connected == (old(connected) && !openPortRaises && !setBaudRateRaises)
      ensures byteWrites == old(byteWrites)
    {
      if openPortRaises {
        connected := false;
        return;
      }
      if setBaudRateRaises {
        connected := false;
      }
    }

    /** `enableTorque`: nothing when not connected; otherwise the enable value is written to each motor in order. */
    method EnableTorque()
      modifies this
      ensures connected == old(connected)
      ensures byteWrites == old(byteWrites) + (if connected then TorqueWrites(dxlIds, addrTorqueEnable, torqueEnable) else [])
    {
      if !connected {
        return;
      }
      for i := 0 to |dxlIds|
        invariant connected
        invariant byteWrites == old(byteWrites) + TorqueWrites(dxlIds[..i], addrTorqueEnable, torqueEnable)
      {
        byteWrites := byteWrites + [ByteWrite(dxlIds[i], addrTorqueEnable, torqueEnable)];
      }
      assert dxlIds[..|dxlIds|] == dxlIds;
    }
  }
}
