/** ArchiveUnpacker: the streaming reader, fed whatever spans the network delivers.
    Its state machine is defined here one byte at a time; `Feed` is the span-at-a-time
    code, and the archive's batch reader is what the whole stream is compared with. */
module Unpacker {
  import opened Bytes
  import opened EntryNames
  import opened Archive

  datatype State = AtMagic | AtCount | AtNameLen | AtName | AtDataLen | InData | Finished

  /** The fields of the unpacker, and the disk it writes to. */
  datatype Machine = Machine(
    state: State, pending: Data, need: nat, count: nat, done: nat,
    name: Data, remaining: nat, disk: Disk)

  datatype Fed = Running(m: Machine) | Failed(error: Error, disk: Disk)

  function Start(disk: Disk): Machine {
    Machine(AtMagic, [], 4, 0, 0, [], 0, disk)
  }

  ghost predicate Valid(m: Machine) {
    match m.state
    case Finished => m.done == m.count
    case InData => 0 < m.remaining && FileKey(m.name) in m.disk && m.done < m.count
    case AtMagic => |m.pending| < m.need == 4 && m.done == 0
    case AtCount => |m.pending| < m.need == 4 && m.done == 0
    case AtNameLen => |m.pending| < m.need == 4 && m.done < m.count
    case AtName => |m.pending| < m.need && m.done < m.count
    case AtDataLen => |m.pending| < m.need == 8 && m.done < m.count
  }

  // ----- one byte at a time -----

  /** A file is complete: on to the next entry, or finished. */
  function NextFile(m: Machine): Machine {
    m.(done := m.done + 1, state := if m.done + 1 == m.count then Finished else AtNameLen,
       need := 4, pending := [])
  }

  /** Append bytes to the open file. */
  function WriteData(m: Machine, bytes: Data): Machine
    requires FileKey(m.name) in m.disk && |bytes| <= m.remaining
  {
    var key := FileKey(m.name);
    var m' := m.(disk := m.disk[key := m.disk[key] + bytes], remaining := m.remaining - |bytes|);
    if m'.remaining == 0 then NextFile(m') else m'
  }

  /** What a completed field does. */
  function Complete(m: Machine, field: Data): Fed {
    match m.state
    case AtMagic =>
      if field != MAGIC then Failed(BadMagic, m.disk)
      else Running(m.(state := AtCount, need := 4, pending := []))
    case AtCount =>
      var count := FromLe(field);
      Running(m.(count := count, state := if count == 0 then Finished else AtNameLen, need := 4, pending := []))
    case AtNameLen =>
      var nameLen := FromLe(field);
      if nameLen == 0 || nameLen > MAX_NAME_LEN then Failed(BadNameLength, m.disk)
      else Running(m.(state := AtName, need := nameLen, pending := []))
    case AtName =>
      Running(m.(name := field, state := AtDataLen, need := 8, pending := []))
    case AtDataLen =>
      if NameCheck(m.name).Bad? then Failed(BadName(NameCheck(m.name).error), m.disk)
      else
        var m' := m.(remaining := FromLe(field), pending := [], disk := m.disk[FileKey(m.name) := []]);
        Running(if m'.remaining == 0 then NextFile(m') else m'.(state := InData))
    case _ => Running(m)
  }

  function Step(m: Machine, b: Byte): Fed
    requires Valid(m)
  {
    if m.state.Finished? then Failed(TrailingBytes, m.disk)
    else if m.state.InData? then Running(WriteData(m, [b]))
    else if |m.pending| + 1 < m.need then Running(m.(pending := m.pending + [b]))
    else Complete(m, m.pending + [b])
  }

  lemma StepKeepsValid(m: Machine, b: Byte)
    requires Valid(m)
    ensures Step(m, b).Running? ==> Valid(Step(m, b).m)
  {}

  /** The machine after bytes, or the failure they run into. */
  function Run(m: Machine, bytes: Data): (r: Fed)
    requires Valid(m)
    ensures r.Running? ==> Valid(r.m)
    decreases |bytes|
  {
    if |bytes| == 0 then Running(m)
    else
      StepKeepsValid(m, bytes[0]);
      var s := Step(m, bytes[0]);
      if s.Failed? then s else Run(s.m, bytes[1..])
  }

  /** Running on from what a first run left. */
  function RunOn(f: Fed, bytes: Data): Fed
    requires f.Running? ==> Valid(f.m)
  {
    if f.Failed? then f else Run(f.m, bytes)
  }

  lemma {:induction false} RunAppend(m: Machine, a: Data, b: Data)
    requires Valid(m)
    ensures Run(m, a + b) == RunOn(Run(m, a), b)
    decreases |a|
  {
    if |a| == 0 {
      assert a + b == b;
    } else {
      StepKeepsValid(m, a[0]);
      assert (a + b)[1..] == a[1..] + b;
      var s := Step(m, a[0]);
      if s.Running? {
        RunAppend(s.m, a[1..], b);
      }
    }
  }

  /** Part of a field. */
  lemma {:induction false} RunPartial(m: Machine, bytes: Data)
    requires Valid(m) && !m.state.Finished? && !m.state.InData?
    requires |m.pending| + |bytes| < m.need
    ensures Run(m, bytes) == Running(m.(pending := m.pending + bytes))
    decreases |bytes|
  {
    if |bytes| == 0 {
      assert m.pending + bytes == m.pending;
    } else {
      RunPartial(m.(pending := m.pending + [bytes[0]]), bytes[1..]);
      assert m.pending + bytes == m.pending + [bytes[0]] + bytes[1..];
    }
  }

  /** The rest of a field. */
  lemma RunField(m: Machine, bytes: Data)
    requires Valid(m) && !m.state.Finished? && !m.state.InData?
    requires |bytes| > 0 && |m.pending| + |bytes| == m.need
    ensures Run(m, bytes) == Complete(m, m.pending + bytes)
  {
    var k := |bytes| - 1;
    var m' := m.(pending := m.pending + bytes[..k]);
    RunPartial(m, bytes[..k]);
    RunAppend(m, bytes[..k], bytes[k..]);
    assert bytes == bytes[..k] + bytes[k..];
    assert m'.pending + [bytes[k]] == m.pending + bytes;
    assert bytes[k..][1..] == [];
    RunOne(m', bytes[k..]);
    CompleteForgetsPending(m, bytes[..k], m.pending + bytes);
  }

  lemma RunOne(m: Machine, bytes: Data)
    requires Valid(m) && |bytes| == 1
    ensures Run(m, bytes) == Step(m, bytes[0])
  {
    StepKeepsValid(m, bytes[0]);
    assert bytes[1..] == [];
  }

  lemma CompleteForgetsPending(m: Machine, bytes: Data, field: Data)
    requires !m.state.Finished? && !m.state.InData?
    ensures Complete(m.(pending := m.pending + bytes), field) == Complete(m, field)
  {}

  /** Bytes of the open file. */
  lemma {:induction false} RunData(m: Machine, bytes: Data)
    requires Valid(m) && m.state.InData? && 0 < |bytes| <= m.remaining
    ensures Run(m, bytes) == Running(WriteData(m, bytes))
    decreases |bytes|
  {
    var first := WriteData(m, [bytes[0]]);
    StepKeepsValid(m, bytes[0]);
    if |bytes| > 1 {
      RunData(first, bytes[1..]);
      var key := FileKey(m.name);
      assert m.disk[key] + [bytes[0]] + bytes[1..] == m.disk[key] + bytes;
    } else {
      assert bytes[1..] == [] && bytes == [bytes[0]];
    }
  }

  // ----- a span at a time: the class -----

  datatype Verdict = Took | Raised(error: Error)

  class ArchiveUnpacker {
    var state: State
    var pending: Data
    var need: nat
    var count: nat
    var doneCount: nat
    var curName: Data
    var dataRemaining: nat
    var disk: Disk

    ghost function View(): Machine
      reads this
    {
      Machine(state, pending, need, count, doneCount, curName, dataRemaining, disk)
    }

    constructor (files: Disk)
      ensures View() == Start(files)
    {
      state, pending, need, count, doneCount := AtMagic, [], 4, 0, 0;
      curName, dataRemaining, disk := [], 0, files;
    }

    /** feed: a span's bytes leave the machine where one byte after another would,
        or raise the error, with the files, that they would. */
    method Feed(data: Data) returns (v: Verdict)
      requires Valid(View())
      modifies this
      ensures v.Took? ==> Run(old(View()), data) == Running(View()) && Valid(View())
      ensures v.Raised? ==> Run(old(View()), data) == Failed(v.error, disk)
    {
      hide Run, Complete, WriteData;
      ghost var before := View();
      var off := 0;
      RunNothing(before, data);
      while off < |data|
        invariant 0 <= off <= |data|
        invariant Valid(View()) && Run(before, data[..off]) == Running(View())
      {
        ghost var here := View();
        if state == InData {
          var n := Min(dataRemaining, |data| - off);
          Onward(before, here, data, off, n);
          RunData(here, data[off..off + n]);
          TakeData(data[off..off + n]);
          off := off + n;
        } else if state == Finished {
          Onward(before, here, data, off, 1);
          RunOne(here, data[off..off + 1]);
          return Raised(TrailingBytes);
        } else {
          var want := need - |pending|;
          var n := Min(want, |data| - off);
          Onward(before, here, data, off, n);
          pending := pending + data[off..off + n];
          if |pending| < need {
            RunPartial(here, data[off..off + n]);
            assert data[..off + n] == data;
            return Took;
          }
          RunField(here, data[off..off + n]);
          CompleteForgetsPending(here, data[off..off + n], pending);
          var r := CompleteField();
          if r.Raised? { return r; }
          off := off + n;
        }
      }
      assert data[..off] == data;
      v := Took;
    }

    /** The streaming branch: bytes straight to the open file. */
    method TakeData(bytes: Data)
      requires Valid(View()) && state == InData && 0 < |bytes| <= dataRemaining
      modifies this
      ensures View() == WriteData(old(View()), bytes)
    {
      var key := FileKey(curName);
      disk := disk[key := disk[key] + bytes];
      dataRemaining := dataRemaining - |bytes|;
      if dataRemaining == 0 {
        doneCount := doneCount + 1;
        state := if doneCount == count then Finished else AtNameLen;
        need := 4;
        pending := [];
      }
    }

    /** The switch over the states of an accumulated field. */
    method CompleteField() returns (v: Verdict)
      requires state != InData && state != Finished && |pending| == need
      modifies this
      ensures v.Took? ==> Complete(old(View()), old(pending)) == Running(View())
      ensures v.Raised? ==> Complete(old(View()), old(pending)) == Failed(v.error, disk)
    {
      match state {
        case AtMagic =>
          if pending != MAGIC { return Raised(BadMagic); }
          state, need, pending := AtCount, 4, [];
        case AtCount =>
          count := FromLe(pending);
          state := if count == 0 then Finished else AtNameLen;
          need, pending := 4, [];
        case AtNameLen =>
          var nameLen := FromLe(pending);
          if nameLen == 0 || nameLen > MAX_NAME_LEN { return Raised(BadNameLength); }
          state, need, pending := AtName, nameLen, [];
        case AtName =>
          curName := pending;
          state, need, pending := AtDataLen, 8, [];
        case AtDataLen =>
          dataRemaining := FromLe(pending);
          pending := [];
          var check := Validate(curName);
          if check.Bad? { return Raised(BadName(check.error)); }
          disk := disk[FileKey(curName) := []];
          if dataRemaining == 0 {
            doneCount := doneCount + 1;
            state := if doneCount == count then Finished else AtNameLen;
            need := 4;
          } else {
            state := InData;
          }
      }
      v := Took;
    }

    /** finish */
    method Finish() returns (r: Outcome<nat>)
      ensures r == if state == Finished then Done(doneCount) else Threw(Incomplete)
    {
      if state != Finished { return Threw(Incomplete); }
      return Done(doneCount);
    }
  }

  lemma RunNothing(m: Machine, data: Data)
    requires Valid(m)
    ensures Run(m, data[..0]) == Running(m)
  {}

  /** The next n bytes of data run on from where the first off left the machine. */
  lemma Onward(before: Machine, here: Machine, data: Data, off: nat, n: nat)
    requires Valid(before) && Valid(here) && off + n <= |data|
    requires Run(before, data[..off]) == Running(here)
    ensures Run(before, data[..off + n]) == Run(here, data[off..off + n])
    ensures Run(here, data[off..off + n]).Failed? ==> Run(before, data) == Run(here, data[off..off + n])
  {
    assert data[..off + n] == data[..off] + data[off..off + n];
    RunAppend(before, data[..off], data[off..off + n]);
    assert data == data[..off + n] + data[off + n..];
    RunAppend(before, data[..off + n], data[off + n..]);
  }
}
