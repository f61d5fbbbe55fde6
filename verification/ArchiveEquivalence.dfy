/** The streaming reader does not see how its input was cut, and agrees with the
    batch reader on every input. */
module ArchiveEquivalence {
  import opened Bytes
  import opened EntryNames
  import opened Archive
  import opened Unpacker

  /** All of bytes fed at once, then finish. */
  function OneShot(bytes: Data, disk: Disk): Unpacked {
    StartValid(disk);
    Close(Run(Start(disk), bytes))
  }

  function Close(f: Fed): Unpacked {
    match f
    case Failed(e, disk) => Unpacked(disk, Threw(e))
    case Running(m) => Unpacked(m.disk, if m.state.Finished? then Done(m.done) else Threw(Incomplete))
  }

  lemma StartValid(disk: Disk)
    ensures Valid(Start(disk))
  {}

  /** A transport that feeds the spans as they come and then calls finish: only the
      bytes matter, not the cuts, on success and on failure alike. */
  method UnpackStream(spans: seq<Data>, files: Disk) returns (r: Outcome<nat>, disk: Disk)
    ensures OneShot(Flat(spans), files) == Unpacked(disk, r)
  {
    var u := new ArchiveUnpacker(files);
    ghost var m0 := u.View();
    StartValid(files);
    for i := 0 to |spans|
      invariant Valid(u.View()) && fresh(u)
      invariant Run(m0, Flat(spans[..i])) == Running(u.View())
    {
      hide Run;
      assert spans[..i + 1][..i] == spans[..i];
      RunAppend(m0, Flat(spans[..i]), spans[i]);
      var v := u.Feed(spans[i]);
      if v.Raised? {
        FailureStays(m0, spans, i + 1);
        return Threw(v.error), u.disk;
      }
    }
    assert spans[..|spans|] == spans;
    r := u.Finish();
    disk := u.disk;
  }

  lemma {:induction false} FailureStays(m: Machine, spans: seq<Data>, k: nat)
    requires Valid(m) && k <= |spans| && Run(m, Flat(spans[..k])).Failed?
    ensures Run(m, Flat(spans)) == Run(m, Flat(spans[..k]))
    decreases |spans| - k
  {
    if k == |spans| {
      assert spans[..k] == spans;
    } else {
      assert spans[..k + 1][..k] == spans[..k];
      RunAppend(m, Flat(spans[..k]), spans[k]);
      FailureStays(m, spans, k + 1);
    }
  }

  // ----- the batch reader -----

  predicate Unfinished(f: Fed) {
    f.Failed? || !f.m.state.Finished?
  }

  predicate AtFieldStart(m: Machine, k: nat) {
    !m.state.Finished? && !m.state.InData? && m.pending == [] && m.need == k
  }

  /** A field that is all there. */
  lemma FieldPresent(m: Machine, a: Data, pos: nat, k: nat)
    requires Valid(m) && AtFieldStart(m, k) && pos + k <= |a|
    ensures var f := Complete(m, a[pos..pos + k]);
      (f.Running? ==> Valid(f.m)) && Run(m, a[pos..]) == RunOn(f, a[pos + k..])
  {
    var field := a[pos..pos + k];
    assert a[pos..] == field + a[pos + k..];
    RunAppend(m, field, a[pos + k..]);
    RunField(m, field);
    assert m.pending + field == field;
  }

  /** A field that is cut off. */
  lemma FieldCutOff(m: Machine, a: Data, pos: nat, k: nat)
    requires Valid(m) && AtFieldStart(m, k) && pos <= |a| < pos + k
    ensures Unfinished(Run(m, a[pos..]))
  {
    RunPartial(m, a[pos..]);
  }

  /** The machine after a whole entry. */
  function AfterEntry(m: Machine, name: Data, disk: Disk): Machine {
    NextFile(m.(name := name, disk := disk, remaining := 0))
  }

  /** The file's bytes, once its length is known. */
  lemma BodyRuns(m: Machine, a: Data, pos: nat)
    requires Valid(m) && m.state.InData? && m.pending == [] && pos <= |a|
    requires m.disk[FileKey(m.name)] == []
    ensures if pos + m.remaining <= |a| then
        var next := pos + m.remaining;
        var m' := AfterEntry(m, m.name, m.disk[FileKey(m.name) := a[pos..next]]);
        Valid(m') && Run(m, a[pos..]) == Run(m', a[next..])
      else
        Unfinished(Run(m, a[pos..]))
  {
    if pos + m.remaining <= |a| {
      var next := pos + m.remaining;
      var body := a[pos..next];
      assert a[pos..] == body + a[next..];
      RunAppend(m, body, a[next..]);
      RunData(m, body);
      assert [] + body == body;
    } else if pos < |a| {
      RunData(m, a[pos..]);
    }
  }

  /** An entry's data, once its name is known. */
  ghost predicate TakesBody(m: Machine, a: Data, pos: nat, u: Unpacked)
    requires Valid(m) && pos <= |a|
  {
    if u.outcome.Done? then
      && u.outcome.value <= |a|
      && Valid(AfterEntry(m, m.name, u.disk))
      && Run(m, a[pos..]) == Run(AfterEntry(m, m.name, u.disk), a[u.outcome.value..])
    else
      Unfinished(Run(m, a[pos..]))
  }

  lemma EmptyBody(m: Machine, a: Data, pos: nat)
    requires Valid(m) && m.state.AtDataLen? && m.pending == [] && pos + 8 <= |a|
    requires Admissible(m.name) && FromLe(a[pos..pos + 8]) == 0
    ensures TakesBody(m, a, pos, UnpackBody(a, pos, m.name, m.disk))
  {
    hide Run, FromLe, NameCheck, FileKey;
    var p := pos + 8;
    FieldPresent(m, a, pos, 8);
    assert a[p..p] == [];
  }

  lemma FullBody(m: Machine, a: Data, pos: nat)
    requires Valid(m) && m.state.AtDataLen? && m.pending == [] && pos + 8 <= |a|
    requires Admissible(m.name) && FromLe(a[pos..pos + 8]) > 0
    ensures TakesBody(m, a, pos, UnpackBody(a, pos, m.name, m.disk))
  {
    hide Run, FromLe, NameCheck, FileKey;
    var len, p, key := FromLe(a[pos..pos + 8]), pos + 8, FileKey(m.name);
    FieldPresent(m, a, pos, 8);
    var m' := Complete(m, a[pos..p]).m;
    BodyRuns(m', a, p);
    if p + len <= |a| {
      assert m'.disk[key := a[p..p + len]] == m.disk[key := a[p..p + len]];
    }
  }

  lemma BodyTaken(m: Machine, a: Data, pos: nat)
    requires Valid(m) && m.state.AtDataLen? && m.pending == [] && pos <= |a|
    ensures TakesBody(m, a, pos, UnpackBody(a, pos, m.name, m.disk))
  {
    hide Run, FromLe, NameCheck, FileKey, Admissible;
    if |a| < pos + 8 {
      FieldCutOff(m, a, pos, 8);
    } else if !Admissible(m.name) {
      FieldPresent(m, a, pos, 8);
    } else if FromLe(a[pos..pos + 8]) == 0 {
      EmptyBody(m, a, pos);
    } else {
      FullBody(m, a, pos);
    }
  }

  /** One entry: the machine takes it exactly when the batch reader does. */
  ghost predicate TakesEntry(m: Machine, a: Data, pos: nat, u: Unpacked)
    requires Valid(m) && pos <= |a|
  {
    if u.outcome.Done? then
      && u.outcome.value <= |a|
      && exists name :: Valid(AfterEntry(m, name, u.disk))
           && Run(m, a[pos..]) == Run(AfterEntry(m, name, u.disk), a[u.outcome.value..])
    else
      Unfinished(Run(m, a[pos..]))
  }

  lemma NameTaken(m: Machine, a: Data, pos: nat)
    requires Valid(m) && m.state.AtName? && m.pending == [] && pos <= |a|
    ensures if |a| < pos + m.need then Unfinished(Run(m, a[pos..]))
            else TakesEntry(m, a, pos, UnpackBody(a, pos + m.need, a[pos..pos + m.need], m.disk))
  {
    hide Run, UnpackBody;
    if |a| < pos + m.need {
      FieldCutOff(m, a, pos, m.need);
    } else {
      FieldPresent(m, a, pos, m.need);
      var p := pos + m.need;
      var name := a[pos..p];
      var m2 := Complete(m, name).m;
      BodyTaken(m2, a, p);
      var u := UnpackBody(a, p, name, m.disk);
      assert AfterEntry(m2, name, u.disk) == AfterEntry(m, name, u.disk);
    }
  }

  lemma EntryTaken(m: Machine, a: Data, pos: nat)
    requires Valid(m) && m.state.AtNameLen? && m.pending == [] && pos <= |a|
    ensures TakesEntry(m, a, pos, UnpackEntry(a, pos, m.disk))
  {
    hide Run, FromLe, UnpackBody;
    if |a| < pos + 4 {
      FieldCutOff(m, a, pos, 4);
      return;
    }
    FieldPresent(m, a, pos, 4);
    var n, p := FromLe(a[pos..pos + 4]), pos + 4;
    if n == 0 || n > MAX_NAME_LEN {
      if p + n <= |a| { BadLength(a, p + n, a[p..p + n], m.disk); }
      return;
    }
    var m1 := Complete(m, a[pos..p]).m;
    NameTaken(m1, a, p);
    var u := UnpackEntry(a, pos, m.disk);
    if u.outcome.Done? {
      var name :| Valid(AfterEntry(m1, name, u.disk))
        && Run(m1, a[p..]) == Run(AfterEntry(m1, name, u.disk), a[u.outcome.value..]);
      assert AfterEntry(m1, name, u.disk) == AfterEntry(m, name, u.disk);
    }
  }

  lemma BadLength(a: Data, pos: nat, name: Data, disk: Disk)
    requires pos <= |a| && (|name| == 0 || |name| > MAX_NAME_LEN)
    ensures UnpackBody(a, pos, name, disk).outcome.Threw?
  {}

  /** The remaining entries. */
  lemma {:induction false} EntriesRun(m: Machine, a: Data, pos: nat)
    requires Valid(m) && m.state.AtNameLen? && m.pending == [] && pos <= |a|
    ensures var u := UnpackEntries(a, pos, m.count - m.done, m.disk);
      var f := Run(m, a[pos..]);
      && (!Unfinished(f) <==> u.outcome == Done(|a|))
      && (!Unfinished(f) ==> f.m.disk == u.disk && f.m.done == m.count)
    decreases m.count - m.done
  {
    hide UnpackEntry, Step, Admissible, FileKey;
    EntryTaken(m, a, pos);
    var u := UnpackEntry(a, pos, m.disk);
    if u.outcome.Done? {
      var name :| Valid(AfterEntry(m, name, u.disk))
        && Run(m, a[pos..]) == Run(AfterEntry(m, name, u.disk), a[u.outcome.value..]);
      var m', next := AfterEntry(m, name, u.disk), u.outcome.value;
      if m'.state.Finished? {
        NothingMore(m', a, next);
      } else {
        EntriesRun(m', a, next);
      }
    }
  }

  /** A finished machine tolerates no further byte. */
  lemma NothingMore(m: Machine, a: Data, pos: nat)
    requires Valid(m) && m.state.Finished? && pos <= |a|
    ensures if pos == |a| then Run(m, a[pos..]) == Running(m) else Run(m, a[pos..]).Failed?
  {}

  /** Streaming succeeds exactly when unpack_into does and leaves no byte over; then
      both write the same files and report the same count. */
  lemma StreamRefinesUnpack(a: Data, disk: Disk)
    ensures OneShot(a, disk).outcome.Done? <==> Unpack(a, disk).outcome == Done(|a|)
    ensures OneShot(a, disk).outcome.Done? ==>
      OneShot(a, disk) == Unpacked(Unpack(a, disk).disk, Done(CountOf(a)))
  {
    var m := Start(disk);
    assert a[0..] == a;
    if |a| < 4 {
      FieldCutOff(m, a, 0, 4);
      return;
    }
    FieldPresent(m, a, 0, 4);
    assert a[0..4] == a[..4];
    if a[..4] != MAGIC {
      return;
    }
    var m1 := Complete(m, a[..4]).m;
    if |a| < 8 {
      FieldCutOff(m1, a, 4, 4);
      return;
    }
    FieldPresent(m1, a, 4, 4);
    var m2 := Complete(m1, a[4..8]).m;
    if m2.state.Finished? {
      NothingMore(m2, a, 8);
    } else {
      EntriesRun(m2, a, 8);
    }
  }

  /** What is streamed out and streamed in, however either side cuts it, arrives as
      it was exactly when every name is admissible. */
  lemma StreamedRoundTrip(entries: seq<Entry>, disk: Disk)
    requires Representable(entries)
    ensures var u := OneShot(Wire(entries), disk);
      && (u.outcome.Done? <==> forall e :: e in entries ==> Admissible(e.rel))
      && (u.outcome.Done? ==> u == Unpacked(WriteAll(disk, entries), Done(|entries|)))
  {
    var a := Wire(entries);
    UnpackPacked(entries, disk);
    StreamRefinesUnpack(a, disk);
    LeRoundTrip(|entries|, 4);
    assert a[4..8] == Le(|entries|, 4);
  }

  /** A stream the sink stops before the last byte never passes for a whole archive. */
  lemma StoppedStreamIsIncomplete(entries: seq<Entry>, sent: Data, disk: Disk)
    requires Representable(entries) && sent < Wire(entries)
    requires forall e :: e in entries ==> Admissible(e.rel)
    ensures OneShot(sent, disk).outcome.Threw?
  {
    var a := Wire(entries);
    var rest := a[|sent|..];
    assert a == sent + rest;
    StartValid(disk);
    RunAppend(Start(disk), sent, rest);
    var f := Run(Start(disk), sent);
    if !Unfinished(f) {
      assert rest[0..] == rest;
      NothingMore(f.m, rest, 0);
      StreamedRoundTrip(entries, disk);
    }
  }
}
