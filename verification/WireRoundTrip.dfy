/** Loading a wire after saving it, and rehydrating it after probing it. */
module WireRoundTrip {
  import opened Wires
  import opened WireKeys
  import Symbolic

  datatype Option<+T> = None | Some(value: T)

  // ----- loading -----

  /** The elements there are, one after the other, up to the first that is missing. */
  ghost predicate IsRun(s: Store, disk: bool, name: string, r: seq<Ct>) {
    && (forall i :: 0 <= i < |r| ==> ManyKey(disk, name, i) in s && r[i] == s[ManyKey(disk, name, i)])
    && ManyKey(disk, name, |r|) !in s
  }

  ghost predicate IsRow(s: Store, disk: bool, name: string, b: nat, r: seq<Ct>) {
    && (forall i :: 0 <= i < |r| ==> CellKey(disk, name, b, i) in s && r[i] == s[CellKey(disk, name, b, i)])
    && CellKey(disk, name, b, |r|) !in s
  }

  /** On disk a row to every batch directory; in a replay rows up to the first empty one. */
  ghost predicate AreRows(s: Store, disk: bool, dirs: nat, name: string, rows: seq<seq<Ct>>) {
    && (forall b :: 0 <= b < |rows| ==> IsRow(s, disk, name, b, rows[b]))
    && if disk then |rows| == dirs
       else (forall b :: 0 <= b < |rows| ==> |rows[b]| > 0) && IsRow(s, disk, name, |rows|, [])
  }

  /** What the generated code puts in a field of that type; a plain field is not loaded. */
  ghost predicate Reads(s: Store, disk: bool, dirs: nat, name: string, shape: Value, v: Value) {
    match shape
    case One(_) => OneKey(disk, name) in s && v == One(s[OneKey(disk, name)])
    case Many(_) => v.Many? && IsRun(s, disk, name, v.cts)
    case Rows(_) => v.Rows? && AreRows(s, disk, dirs, name, v.rows)
    case Other(_) => v.Other?
  }

  method LoadMany(s: Store, disk: bool, name: string) returns (r: seq<Ct>)
    ensures IsRun(s, disk, name, r)
  {
    hide ManyKey;
    r := [];
    ghost var left := s.Keys;
    while ManyKey(disk, name, |r|) in s
      invariant forall i :: 0 <= i < |r| ==> ManyKey(disk, name, i) in s && r[i] == s[ManyKey(disk, name, i)]
      invariant forall j: nat :: |r| <= j && ManyKey(disk, name, j) in s ==> ManyKey(disk, name, j) in left
      decreases left
    {
      var key := ManyKey(disk, name, |r|);
      forall j: nat | |r| < j && ManyKey(disk, name, j) == key
        ensures false
      {
        ManyInjective(disk, name, name, j, |r|);
      }
      left := left - {key};
      r := r + [s[key]];
    }
  }

  method LoadRow(s: Store, disk: bool, name: string, b: nat) returns (r: seq<Ct>)
    ensures IsRow(s, disk, name, b, r)
  {
    hide CellKey;
    r := [];
    ghost var left := s.Keys;
    while CellKey(disk, name, b, |r|) in s
      invariant forall i :: 0 <= i < |r| ==> CellKey(disk, name, b, i) in s && r[i] == s[CellKey(disk, name, b, i)]
      invariant forall j: nat :: |r| <= j && CellKey(disk, name, b, j) in s ==> CellKey(disk, name, b, j) in left
      decreases left
    {
      var key := CellKey(disk, name, b, |r|);
      forall j: nat | |r| < j && CellKey(disk, name, b, j) == key
        ensures false
      {
        CellInjective(disk, name, name, b, b, j, |r|);
      }
      left := left - {key};
      r := r + [s[key]];
    }
  }

  /** `for (_b = 0; ; _b++)` over the batch directories there are. */
  method LoadBatches(s: Store, dirs: nat, name: string) returns (rows: seq<seq<Ct>>)
    ensures AreRows(s, true, dirs, name, rows)
  {
    hide CellKey, IsRow;
    rows := [];
    while |rows| < dirs
      invariant |rows| <= dirs && forall b :: 0 <= b < |rows| ==> IsRow(s, true, name, b, rows[b])
    {
      var row := LoadRow(s, true, name, |rows|);
      rows := rows + [row];
    }
  }

  /** The replay's form: an empty row ends it. */
  method RehydrateRows(s: Store, name: string) returns (rows: seq<seq<Ct>>)
    ensures AreRows(s, false, 0, name, rows)
  {
    hide CellKey;
    rows := [];
    ghost var left := s.Keys;
    while true
      invariant forall b :: 0 <= b < |rows| ==> IsRow(s, false, name, b, rows[b]) && |rows[b]| > 0
      invariant forall b: nat :: |rows| <= b && CellKey(false, name, b, 0) in s ==> CellKey(false, name, b, 0) in left
      decreases left
    {
      var row := LoadRow(s, false, name, |rows|);
      if |row| == 0 {
        assert row == [];
        return;
      }
      var key := CellKey(false, name, |rows|, 0);
      assert key in s;
      forall b: nat | |rows| < b && CellKey(false, name, b, 0) == key ensures false {
        CellInjective(false, name, name, b, |rows|, 0, 0);
      }
      left := left - {key};
      rows := rows + [row];
    }
  }

  /** _gen_load's generic layout, and the replay form of _gen_result_io, for one field. */
  method LoadField(s: Store, disk: bool, dirs: nat, name: string, shape: Value) returns (v: Option<Value>)
    ensures v.None? <==> shape.One? && OneKey(disk, name) !in s
    ensures v.Some? ==> Reads(s, disk, dirs, name, shape, v.value)
  {
    match shape {
      case One(_) =>
        if OneKey(disk, name) !in s {
          return None;
        }
        return Some(One(s[OneKey(disk, name)]));
      case Many(_) =>
        var cts := LoadMany(s, disk, name);
        return Some(Many(cts));
      case Rows(_) =>
        var rows;
        if disk {
          rows := LoadBatches(s, dirs, name);
        } else {
          rows := RehydrateRows(s, name);
        }
        return Some(Rows(rows));
      case Other(_) => return Some(Other([]));
    }
  }

  // ----- what is in the store -----

  /** The keys of one field's value. */
  ghost predicate Owns(disk: bool, name: string, v: Value, p: Path) {
    match v
    case One(_) => p == OneKey(disk, name)
    case Many(cts) => exists i: nat :: i < |cts| && p == ManyKey(disk, name, i)
    case Rows(rows) => exists b: nat, i: nat :: b < |rows| && i < |rows[b]| && p == CellKey(disk, name, b, i)
    case Other(_) => disk && p == OneKey(disk, name)
  }

  /** p holds the same in both stores. */
  predicate SameAt(s: Store, t: Store, p: Path) {
    (p in s <==> p in t) && (p in s ==> s[p] == t[p])
  }

  predicate HoldsAt(s: Store, p: Path, ct: Ct) {
    p in s && s[p] == ct
  }

  lemma {:induction false} ManyStored(s: Store, disk: bool, name: string, cts: seq<Ct>, i: nat)
    requires i < |cts|
    ensures HoldsAt(WithMany(s, disk, name, cts), ManyKey(disk, name, i), cts[i])
  {
    hide ManyKey;
    var n := |cts| - 1;
    if i < n {
      ManyStored(s, disk, name, cts[..n], i);
      if ManyKey(disk, name, i) == ManyKey(disk, name, n) { ManyInjective(disk, name, name, i, n); }
    }
  }

  lemma {:induction false} ManyElsewhere(s: Store, disk: bool, name: string, cts: seq<Ct>, p: Path)
    requires forall i: nat :: i < |cts| ==> p != ManyKey(disk, name, i)
    ensures SameAt(s, WithMany(s, disk, name, cts), p)
  {
    hide ManyKey;
    if |cts| > 0 { ManyElsewhere(s, disk, name, cts[..|cts| - 1], p); }
  }

  lemma {:induction false} RowStored(s: Store, disk: bool, name: string, b: nat, row: seq<Ct>, i: nat)
    requires i < |row|
    ensures HoldsAt(WithRow(s, disk, name, b, row), CellKey(disk, name, b, i), row[i])
  {
    hide CellKey;
    var n := |row| - 1;
    if i < n {
      RowStored(s, disk, name, b, row[..n], i);
      if CellKey(disk, name, b, i) == CellKey(disk, name, b, n) { CellInjective(disk, name, name, b, b, i, n); }
    }
  }

  lemma {:induction false} RowElsewhere(s: Store, disk: bool, name: string, b: nat, row: seq<Ct>, p: Path)
    requires forall i: nat :: i < |row| ==> p != CellKey(disk, name, b, i)
    ensures SameAt(s, WithRow(s, disk, name, b, row), p)
  {
    hide CellKey;
    if |row| > 0 { RowElsewhere(s, disk, name, b, row[..|row| - 1], p); }
  }

  lemma {:induction false} RowsElsewhere(s: Store, disk: bool, name: string, rows: seq<seq<Ct>>, p: Path)
    requires forall b: nat, i: nat :: b < |rows| && i < |rows[b]| ==> p != CellKey(disk, name, b, i)
    ensures SameAt(s, WithRows(s, disk, name, rows), p)
  {
    hide CellKey, WithRow;
    if |rows| > 0 {
      var n := |rows| - 1;
      RowsElsewhere(s, disk, name, rows[..n], p);
      RowElsewhere(WithRows(s, disk, name, rows[..n]), disk, name, n, rows[n], p);
    }
  }

  lemma {:induction false} RowsStored(s: Store, disk: bool, name: string, rows: seq<seq<Ct>>, b: nat, i: nat)
    requires b < |rows| && i < |rows[b]|
    ensures HoldsAt(WithRows(s, disk, name, rows), CellKey(disk, name, b, i), rows[b][i])
  {
    hide CellKey, WithRow;
    var n := |rows| - 1;
    var before := WithRows(s, disk, name, rows[..n]);
    if b == n {
      RowStored(before, disk, name, n, rows[n], i);
    } else {
      RowsStored(s, disk, name, rows[..n], b, i);
      forall j: nat | j < |rows[n]| && CellKey(disk, name, b, i) == CellKey(disk, name, n, j) ensures false {
        CellInjective(disk, name, name, b, n, i, j);
      }
      RowElsewhere(before, disk, name, n, rows[n], CellKey(disk, name, b, i));
    }
  }

  lemma FieldElsewhere(s: Store, disk: bool, name: string, v: Value, p: Path)
    requires !Owns(disk, name, v, p)
    ensures SameAt(s, WithField(s, disk, name, v), p)
  {
    hide OneKey, ManyKey, CellKey;
    match v
    case Many(cts) => ManyElsewhere(s, disk, name, cts, p);
    case Rows(rows) => RowsElsewhere(s, disk, name, rows, p);
    case _ =>
  }

  /** What the field's own keys are to hold. */
  ghost predicate Kept(s: Store, disk: bool, name: string, v: Value) {
    match v
    case One(ct) => HoldsAt(s, OneKey(disk, name), ct)
    case Many(cts) => forall i: nat :: i < |cts| ==> HoldsAt(s, ManyKey(disk, name, i), cts[i])
    case Rows(rows) => forall b: nat, i: nat :: b < |rows| && i < |rows[b]| ==>
        HoldsAt(s, CellKey(disk, name, b, i), rows[b][i])
    case Other(_) => true
  }

  lemma FieldStored(s: Store, disk: bool, name: string, v: Value)
    ensures Kept(WithField(s, disk, name, v), disk, name, v)
  {
    hide OneKey, ManyKey, CellKey, HoldsAt, WithMany, WithRows;
    match v
    case One(ct) =>
      assert HoldsAt(s[OneKey(disk, name) := ct], OneKey(disk, name), ct) by {
        UpdateHolds(s, OneKey(disk, name), ct);
      }
    case Many(cts) =>
      forall i: nat | i < |cts| ensures HoldsAt(WithMany(s, disk, name, cts), ManyKey(disk, name, i), cts[i]) {
        ManyStored(s, disk, name, cts, i);
      }
    case Rows(rows) =>
      forall b: nat, i: nat | b < |rows| && i < |rows[b]|
        ensures HoldsAt(WithRows(s, disk, name, rows), CellKey(disk, name, b, i), rows[b][i])
      {
        RowsStored(s, disk, name, rows, b, i);
      }
    case _ =>
  }

  lemma UpdateHolds(s: Store, p: Path, ct: Ct)
    ensures HoldsAt(s[p := ct], p, ct)
  {}

  // ----- fields apart -----

  predicate Distinct(fields: seq<Field>) {
    forall j, k :: 0 <= j < k < |fields| ==> fields[j].name != fields[k].name
  }

  /** g is named like an element of f that a value of f's kind could have: by their names and
      kinds alone. */
  ghost predicate Clash(disk: bool, f: Field, g: Field) {
    || (f.value.Many? && (g.value.One? || (disk && g.value.Other?)) && exists i: nat :: g.name == Numbered(f.name, i))
    || (!disk && f.value.Rows? && g.value.Many? && exists b: nat :: g.name == Numbered(f.name, b))
    || (!disk && f.value.Rows? && g.value.One? && exists b: nat, i: nat :: g.name == Numbered(Numbered(f.name, b), i))
  }

  /** Different names, and no clash. */
  ghost predicate Apart(disk: bool, fields: seq<Field>) {
    && Distinct(fields)
    && forall j, k :: 0 <= j < |fields| && 0 <= k < |fields| && j != k ==> !Clash(disk, fields[j], fields[k])
  }

  /** Names that do not end in an underscore and digits never clash. */
  lemma PlainNamesApart(disk: bool, fields: seq<Field>)
    requires Distinct(fields) && forall k :: 0 <= k < |fields| ==> !EndsInNumber(fields[k].name)
    ensures Apart(disk, fields)
  {
    hide EndsInNumber, Numbered;
    forall j, k | 0 <= j < |fields| && 0 <= k < |fields| && j != k ensures !Clash(disk, fields[j], fields[k]) {
      forall a: string, i: nat ensures fields[k].name != Numbered(a, i) { NumberedNotPlain(fields[k].name, a, i); }
    }
  }

  /** Any key a field of that name and kind could have. */
  ghost predicate Shaped(disk: bool, name: string, kind: Value, p: Path) {
    match kind
    case One(_) => p == OneKey(disk, name)
    case Many(_) => exists i: nat :: p == ManyKey(disk, name, i)
    case Rows(_) => exists b: nat, i: nat :: p == CellKey(disk, name, b, i)
    case Other(_) => disk && p == OneKey(disk, name)
  }

  lemma OwnedIsShaped(disk: bool, name: string, v: Value, p: Path)
    requires Owns(disk, name, v, p)
    ensures Shaped(disk, name, v, p)
  {
    hide OneKey, ManyKey, CellKey;
  }

  /** Keys of the same kind are different, under different names. */
  lemma SameKindApart(disk: bool, a: string, b: string, v: Value, w: Value, p: Path)
    requires a != b && Shaped(disk, a, v, p) && Shaped(disk, b, w, p)
    ensures !(v.Many? && w.Many?) && !(v.Rows? && w.Rows?)
    ensures !((v.One? || v.Other?) && (w.One? || w.Other?))
  {
    hide OneKey, ManyKey, CellKey;
    if v.Many? && w.Many? {
      var i: nat, j: nat :| p == ManyKey(disk, a, i) && p == ManyKey(disk, b, j);
      ManyInjective(disk, a, b, i, j);
    } else if v.Rows? && w.Rows? {
      var r: nat, i: nat :| p == CellKey(disk, a, r, i);
      var q: nat, j: nat :| p == CellKey(disk, b, q, j);
      CellInjective(disk, a, b, r, q, i, j);
    } else if (v.One? || v.Other?) && (w.One? || w.Other?) {
      OneInjective(disk, a, b);
    }
  }

  ghost predicate NamedLike(disk: bool, a: string, v: Value, b: string, w: Value) {
    || (v.Many? && (w.One? || (disk && w.Other?)) && exists i: nat :: b == Numbered(a, i))
    || (!disk && v.Rows? && w.Many? && exists r: nat :: b == Numbered(a, r))
    || (!disk && v.Rows? && w.One? && exists r: nat, i: nat :: b == Numbered(Numbered(a, r), i))
  }

  /** Keys of different kinds are the same only where one name is like an element's. */
  lemma ShapesMeet(disk: bool, a: string, v: Value, b: string, w: Value, p: Path)
    requires a != b && Shaped(disk, a, v, p) && Shaped(disk, b, w, p)
    ensures NamedLike(disk, a, v, b, w) || NamedLike(disk, b, w, a, v)
  {
    hide OneKey, ManyKey, CellKey, Numbered;
    SameKindApart(disk, a, b, v, w, p);
    if v.Many? {
      var i: nat :| p == ManyKey(disk, a, i);
      ElementMeets(disk, a, i, v, b, w, p);
    } else if w.Many? {
      var i: nat :| p == ManyKey(disk, b, i);
      ElementMeets(disk, b, i, w, a, v, p);
    } else if v.Rows? {
      var r: nat, i: nat :| p == CellKey(disk, a, r, i);
      OneIsCell(disk, b, a, r, i);
    } else {
      var r: nat, i: nat :| p == CellKey(disk, b, r, i);
      OneIsCell(disk, a, b, r, i);
    }
  }

  lemma ElementMeets(disk: bool, a: string, i: nat, v: Value, b: string, w: Value, p: Path)
    requires v.Many? && !w.Many? && p == ManyKey(disk, a, i) && Shaped(disk, b, w, p)
    ensures NamedLike(disk, a, v, b, w) || NamedLike(disk, b, w, a, v)
  {
    hide OneKey, ManyKey, CellKey, Numbered;
    if w.Rows? {
      var r: nat, j: nat :| p == CellKey(disk, b, r, j);
      ManyIsCell(disk, a, i, b, r, j);
    } else {
      OneIsMany(disk, b, a, i);
    }
  }

  /** Base names are alike just as the fields' names are. */
  lemma LikeBases(disk: bool, total: nat, f: Field, g: Field)
    requires total != 1
    ensures NamedLike(disk, BaseName(disk, total, f.name), f.value, BaseName(disk, total, g.name), g.value) <==>
        Clash(disk, f, g)
  {
    hide Numbered, BaseName;
    forall i: nat
      ensures BaseName(disk, total, g.name) == Numbered(BaseName(disk, total, f.name), i) <==>
          g.name == Numbered(f.name, i)
    {
      BaseNumbered(disk, total, g.name, f.name, i);
    }
    forall b: nat, i: nat
      ensures BaseName(disk, total, g.name) == Numbered(Numbered(BaseName(disk, total, f.name), b), i) <==>
              g.name == Numbered(Numbered(f.name, b), i)
    {
      BaseNumbered(disk, total, g.name, f.name, b);
      BaseNumbered(disk, total, g.name, Numbered(f.name, b), i);
    }
  }

  /** A key shaped for one field is not another's. */
  lemma OthersElsewhere(disk: bool, fields: seq<Field>, total: nat, j: nat, k: nat, p: Path)
    requires Apart(disk, fields) && |fields| <= total && j < |fields| && k < |fields| && j != k
    requires Shaped(disk, BaseName(disk, total, fields[k].name), fields[k].value, p)
    ensures !Owns(disk, BaseName(disk, total, fields[j].name), fields[j].value, p)
  {
    hide Shaped, Owns, BaseName, NamedLike, Clash;
    var f, g := fields[k], fields[j];
    var a, b := BaseName(disk, total, f.name), BaseName(disk, total, g.name);
    assert f.name != g.name;
    BasesEqual(disk, total, f.name, g.name);
    LikeBases(disk, total, f, g);
    LikeBases(disk, total, g, f);
    if Owns(disk, b, g.value, p) {
      OwnedIsShaped(disk, b, g.value, p);
      ShapesMeet(disk, a, f.value, b, g.value, p);
    }
  }

  lemma ApartBefore(disk: bool, fields: seq<Field>)
    requires |fields| > 0 && Apart(disk, fields)
    ensures Apart(disk, fields[..|fields| - 1])
  {
    hide Clash;
  }

  /** A key shaped for the k-th field holds what that field's own saving put there. */
  lemma {:induction false} SavedAt(disk: bool, fields: seq<Field>, total: nat, k: nat, p: Path)
    requires Apart(disk, fields) && |fields| <= total && k < |fields|
    requires Shaped(disk, BaseName(disk, total, fields[k].name), fields[k].value, p)
    ensures var base := BaseName(disk, total, fields[k].name);
      SameAt(Saved(disk, fields, total), WithField(map[], disk, base, fields[k].value), p)
  {
    hide Shaped, Owns, BaseName, Apart, WithField;
    var n := |fields| - 1;
    var before := Saved(disk, fields[..n], total);
    var base := BaseName(disk, total, fields[k].name);
    if k < n {
      ApartBefore(disk, fields);
      SavedAt(disk, fields[..n], total, k, p);
      OthersElsewhere(disk, fields, total, n, k, p);
      FieldElsewhere(before, disk, BaseName(disk, total, fields[n].name), fields[n].value, p);
    } else {
      NotYet(disk, fields, total, n, p);
      FieldOnto(before, map[], disk, base, fields[n].value, p);
    }
  }

  /** None of the fields before has a key shaped for the next. */
  lemma {:induction false} NotYet(disk: bool, fields: seq<Field>, total: nat, k: nat, p: Path)
    requires Apart(disk, fields) && |fields| <= total && k < |fields|
    requires Shaped(disk, BaseName(disk, total, fields[k].name), fields[k].value, p)
    ensures p !in Saved(disk, fields[..k], total)
  {
    hide Shaped, Owns, BaseName, WithField, Clash;
    NotIn(disk, fields, total, k, p, k);
  }

  lemma {:induction false} NotIn(disk: bool, fields: seq<Field>, total: nat, k: nat, p: Path, m: nat)
    requires Apart(disk, fields) && |fields| <= total && m <= k < |fields|
    requires Shaped(disk, BaseName(disk, total, fields[k].name), fields[k].value, p)
    ensures p !in Saved(disk, fields[..m], total)
  {
    hide Shaped, Owns, BaseName, Apart, WithField;
    if m > 0 {
      NotIn(disk, fields, total, k, p, m - 1);
      assert fields[..m][..m - 1] == fields[..m - 1];
      OthersElsewhere(disk, fields, total, m - 1, k, p);
      FieldElsewhere(Saved(disk, fields[..m - 1], total), disk, BaseName(disk, total, fields[m - 1].name),
          fields[m - 1].value, p);
    }
  }

  /** A field's saving does the same to a key wherever that key held the same before. */
  lemma FieldOnto(s: Store, t: Store, disk: bool, name: string, v: Value, p: Path)
    requires SameAt(s, t, p)
    ensures SameAt(WithField(s, disk, name, v), WithField(t, disk, name, v), p)
  {
    hide OneKey, ManyKey, CellKey, WithMany, WithRows;
    match v
    case Many(cts) => ManyOnto(s, t, disk, name, cts, p);
    case Rows(rows) => RowsOnto(s, t, disk, name, rows, p);
    case _ =>
  }

  lemma {:induction false} ManyOnto(s: Store, t: Store, disk: bool, name: string, cts: seq<Ct>, p: Path)
    requires SameAt(s, t, p)
    ensures SameAt(WithMany(s, disk, name, cts), WithMany(t, disk, name, cts), p)
  {
    hide ManyKey;
    if |cts| > 0 { ManyOnto(s, t, disk, name, cts[..|cts| - 1], p); }
  }

  lemma {:induction false} RowOnto(s: Store, t: Store, disk: bool, name: string, b: nat, row: seq<Ct>, p: Path)
    requires SameAt(s, t, p)
    ensures SameAt(WithRow(s, disk, name, b, row), WithRow(t, disk, name, b, row), p)
  {
    hide CellKey;
    if |row| > 0 { RowOnto(s, t, disk, name, b, row[..|row| - 1], p); }
  }

  lemma {:induction false} RowsOnto(s: Store, t: Store, disk: bool, name: string, rows: seq<seq<Ct>>, p: Path)
    requires SameAt(s, t, p)
    ensures SameAt(WithRows(s, disk, name, rows), WithRows(t, disk, name, rows), p)
  {
    hide CellKey, WithRow;
    if |rows| > 0 {
      var n := |rows| - 1;
      RowsOnto(s, t, disk, name, rows[..n], p);
      RowOnto(WithRows(s, disk, name, rows[..n]), WithRows(t, disk, name, rows[..n]), disk, name, n, rows[n], p);
    }
  }

  // ----- round trips -----

  /** The one thing besides names that a field needs: as many batches as any other on
      disk, and no empty row in a recording. */
  predicate Regular(disk: bool, dirs: nat, v: Value) {
    v.Rows? ==> if disk then |v.rows| == dirs else forall b :: 0 <= b < |v.rows| ==> |v.rows[b]| > 0
  }

  lemma OneBack(s: Store, disk: bool, name: string, ct: Ct)
    requires Kept(s, disk, name, One(ct))
    ensures OneKey(disk, name) in s && s[OneKey(disk, name)] == ct
  {}

  lemma ManyBack(s: Store, disk: bool, name: string, cts: seq<Ct>, r: seq<Ct>)
    requires Kept(s, disk, name, Many(cts)) && ManyKey(disk, name, |cts|) !in s && IsRun(s, disk, name, r)
    ensures r == cts
  {
    hide ManyKey;
    assert forall i: nat :: i < |cts| ==> ManyKey(disk, name, i) in s;
    assert |r| == |cts|;
    forall i | 0 <= i < |r| ensures r[i] == cts[i] {
      assert HoldsAt(s, ManyKey(disk, name, i), cts[i]);
    }
  }

  lemma RowBack(s: Store, disk: bool, name: string, rows: seq<seq<Ct>>, b: nat, row: seq<Ct>, r: seq<Ct>)
    requires Kept(s, disk, name, Rows(rows)) && row == (if b < |rows| then rows[b] else [])
    requires CellKey(disk, name, b, |row|) !in s && IsRow(s, disk, name, b, r)
    ensures r == row
  {
    hide CellKey;
    assert forall i: nat :: i < |row| ==> CellKey(disk, name, b, i) in s;
    assert |r| == |row|;
    forall i | 0 <= i < |r| ensures r[i] == row[i] {
      assert HoldsAt(s, CellKey(disk, name, b, i), row[i]);
    }
  }

  lemma FieldKept(disk: bool, fields: seq<Field>, k: nat)
    requires Apart(disk, fields) && k < |fields|
    ensures Kept(Saved(disk, fields, |fields|), disk, BaseName(disk, |fields|, fields[k].name), fields[k].value)
  {
    hide OneKey, ManyKey, CellKey, Saved, WithField, BaseName, Apart;
    var total := |fields|;
    var base, v := BaseName(disk, total, fields[k].name), fields[k].value;
    var alone: Store := map[];
    FieldStored(alone, disk, base, v);
    match v
    case One(ct) => SavedAt(disk, fields, total, k, OneKey(disk, base));
    case Many(cts) =>
      forall i: nat | i < |cts| ensures HoldsAt(Saved(disk, fields, total), ManyKey(disk, base, i), cts[i]) {
        SavedAt(disk, fields, total, k, ManyKey(disk, base, i));
        assert HoldsAt(WithField(alone, disk, base, v), ManyKey(disk, base, i), cts[i]);
      }
    case Rows(rows) =>
      forall b: nat, i: nat | b < |rows| && i < |rows[b]|
        ensures HoldsAt(Saved(disk, fields, total), CellKey(disk, base, b, i), rows[b][i])
      {
        SavedAt(disk, fields, total, k, CellKey(disk, base, b, i));
        assert HoldsAt(WithField(alone, disk, base, v), CellKey(disk, base, b, i), rows[b][i]);
      }
    case Other(_) =>
  }

  /** A key shaped for the field that is none of its value's is not there. */
  lemma NothingMore(disk: bool, fields: seq<Field>, k: nat, p: Path)
    requires Apart(disk, fields) && k < |fields|
    requires var base := BaseName(disk, |fields|, fields[k].name);
      Shaped(disk, base, fields[k].value, p) && !Owns(disk, base, fields[k].value, p)
    ensures p !in Saved(disk, fields, |fields|)
  {
    hide Shaped, Owns, Saved, WithField, BaseName, Apart;
    var base, alone := BaseName(disk, |fields|, fields[k].name), map[];
    SavedAt(disk, fields, |fields|, k, p);
    FieldElsewhere(alone, disk, base, fields[k].value, p);
  }

  lemma NoMoreElements(disk: bool, fields: seq<Field>, k: nat)
    requires Apart(disk, fields) && k < |fields| && fields[k].value.Many?
    ensures ManyKey(disk, BaseName(disk, |fields|, fields[k].name), |fields[k].value.cts|)
      !in Saved(disk, fields, |fields|)
  {
    hide OneKey, ManyKey, CellKey, Saved, BaseName, Apart;
    var base, n := BaseName(disk, |fields|, fields[k].name), |fields[k].value.cts|;
    forall i: nat | i < n ensures ManyKey(disk, base, n) != ManyKey(disk, base, i) {
      if ManyKey(disk, base, n) == ManyKey(disk, base, i) { ManyInjective(disk, base, base, n, i); }
    }
    NothingMore(disk, fields, k, ManyKey(disk, base, n));
  }

  lemma NoMoreCells(disk: bool, fields: seq<Field>, k: nat, b: nat)
    requires Apart(disk, fields) && k < |fields| && fields[k].value.Rows?
    ensures var rows := fields[k].value.rows;
      CellKey(disk, BaseName(disk, |fields|, fields[k].name), b, if b < |rows| then |rows[b]| else 0)
        !in Saved(disk, fields, |fields|)
  {
    hide OneKey, ManyKey, CellKey, Saved, BaseName, Apart;
    var base, rows := BaseName(disk, |fields|, fields[k].name), fields[k].value.rows;
    var n := if b < |rows| then |rows[b]| else 0;
    forall c: nat, i: nat | c < |rows| && i < |rows[c]| ensures CellKey(disk, base, b, n) != CellKey(disk, base, c, i) {
      if CellKey(disk, base, b, n) == CellKey(disk, base, c, i) { CellInjective(disk, base, base, b, c, n, i); }
    }
    NothingMore(disk, fields, k, CellKey(disk, base, b, n));
  }

  lemma {:induction false} BatchesAtLeast(fields: seq<Field>, k: nat)
    requires k < |fields|
    ensures RowCount(fields[k].value) <= Batches(fields)
  {
    if k < |fields| - 1 {
      BatchesAtLeast(fields[..|fields| - 1], k);
    }
  }

  /** Each row that is read is the row that was saved, or an empty one after the last. */
  lemma RowsRead(disk: bool, fields: seq<Field>, k: nat, r: seq<seq<Ct>>, b: nat)
    requires Apart(disk, fields) && k < |fields| && fields[k].value.Rows?
    requires AreRows(Saved(disk, fields, |fields|), disk, Batches(fields), BaseName(disk, |fields|, fields[k].name), r)
    requires b < |r|
    ensures r[b] == if b < |fields[k].value.rows| then fields[k].value.rows[b] else []
  {
    hide Saved, BaseName, Apart, CellKey, IsRow, Kept;
    var rows := fields[k].value.rows;
    FieldKept(disk, fields, k);
    NoMoreCells(disk, fields, k, b);
    RowBack(Saved(disk, fields, |fields|), disk, BaseName(disk, |fields|, fields[k].name), rows, b,
            if b < |rows| then rows[b] else [], r[b]);
  }

  /** A replay stops at the first row that was empty, or after the last. */
  lemma ReplayEnds(fields: seq<Field>, k: nat, r: seq<seq<Ct>>)
    requires Apart(false, fields) && k < |fields| && fields[k].value.Rows?
    requires AreRows(Saved(false, fields, |fields|), false, Batches(fields), BaseName(false, |fields|, fields[k].name),
        r)
    ensures |r| < |fields[k].value.rows| ==> fields[k].value.rows[|r|] == []
  {
    hide Saved, BaseName, Apart, CellKey, IsRow, Kept;
    var rows := fields[k].value.rows;
    FieldKept(false, fields, k);
    NoMoreCells(false, fields, k, |r|);
    RowBack(Saved(false, fields, |fields|), false, BaseName(false, |fields|, fields[k].name), rows, |r|,
            if |r| < |rows| then rows[|r|] else [], []);
  }

  lemma RowsBack(disk: bool, fields: seq<Field>, k: nat, r: seq<seq<Ct>>)
    requires Apart(disk, fields) && k < |fields| && fields[k].value.Rows?
    requires AreRows(Saved(disk, fields, |fields|), disk, Batches(fields), BaseName(disk, |fields|, fields[k].name), r)
    ensures r == fields[k].value.rows <==> Regular(disk, Batches(fields), fields[k].value)
  {
    hide Saved, BaseName, Apart, IsRow;
    var rows := fields[k].value.rows;
    var past := if |rows| < |r| then r[|rows|] else [];
    BatchesAtLeast(fields, k);
    if disk {
      assert |r| == Batches(fields);
    } else {
      ReplayEnds(fields, k, r);
    }
    forall b | 0 <= b < |r| ensures r[b] == if b < |rows| then rows[b] else [] { RowsRead(disk, fields, k, r, b); }
    if Regular(disk, Batches(fields), fields[k].value) {
      assert |r| == |rows|;
    }
  }

  /** Loaded after being saved, or rehydrated after being probed, a field is what it was,
      if and only if its rows are regular. */
  lemma FieldBack(disk: bool, fields: seq<Field>, k: nat, v: Value)
    requires Apart(disk, fields) && k < |fields| && !fields[k].value.Other?
    requires Reads(Saved(disk, fields, |fields|), disk, Batches(fields), BaseName(disk, |fields|, fields[k].name),
        fields[k].value, v)
    ensures v == fields[k].value <==> Regular(disk, Batches(fields), fields[k].value)
  {
    hide Saved, BaseName, Apart, AreRows, IsRun, Kept;
    FieldKept(disk, fields, k);
    var s, base := Saved(disk, fields, |fields|), BaseName(disk, |fields|, fields[k].name);
    match fields[k].value
    case One(ct) => OneBack(s, disk, base, ct);
    case Many(cts) =>
      NoMoreElements(disk, fields, k);
      ManyBack(s, disk, base, cts, v.cts);
    case Rows(_) => RowsBack(disk, fields, k, v.rows);
  }

  // ----- fields that clash -----

  predicate SameKind(v: Value, w: Value) {
    (v.One? <==> w.One?) && (v.Many? <==> w.Many?) && (v.Rows? <==> w.Rows?)
  }

  /** The same names and kinds, with other values. */
  predicate SameShapes(fields: seq<Field>, others: seq<Field>) {
    |fields| == |others| &&
    forall k :: 0 <= k < |fields| ==> fields[k].name == others[k].name && SameKind(fields[k].value, others[k].value)
  }

  ghost predicate FieldReads(disk: bool, fields: seq<Field>, k: nat, v: Value)
    requires k < |fields|
  {
    Reads(Saved(disk, fields, |fields|), disk, Batches(fields), BaseName(disk, |fields|, fields[k].name),
        fields[k].value, v)
  }

  /** Every field that is loaded comes back, if its rows are regular. */
  ghost predicate ComeBack(disk: bool, fields: seq<Field>) {
    forall k: nat :: k < |fields| && !fields[k].value.Other? && Regular(disk, Batches(fields), fields[k].value) ==>
      FieldReads(disk, fields, k, fields[k].value)
  }

  /** Saving another field removes no key. */
  lemma {:induction false} ManyStay(s: Store, disk: bool, name: string, cts: seq<Ct>, p: Path)
    requires p in s
    ensures p in WithMany(s, disk, name, cts)
  {
    hide ManyKey;
    if |cts| > 0 { ManyStay(s, disk, name, cts[..|cts| - 1], p); }
  }

  lemma {:induction false} RowStays(s: Store, disk: bool, name: string, b: nat, row: seq<Ct>, p: Path)
    requires p in s
    ensures p in WithRow(s, disk, name, b, row)
  {
    hide CellKey;
    if |row| > 0 { RowStays(s, disk, name, b, row[..|row| - 1], p); }
  }

  lemma {:induction false} RowsStay(s: Store, disk: bool, name: string, rows: seq<seq<Ct>>, p: Path)
    requires p in s
    ensures p in WithRows(s, disk, name, rows)
  {
    hide WithRow;
    if |rows| > 0 {
      RowsStay(s, disk, name, rows[..|rows| - 1], p);
      RowStays(WithRows(s, disk, name, rows[..|rows| - 1]), disk, name, |rows| - 1, rows[|rows| - 1], p);
    }
  }

  lemma FieldStays(s: Store, disk: bool, name: string, v: Value, p: Path)
    requires p in s
    ensures p in WithField(s, disk, name, v)
  {
    hide OneKey, WithMany, WithRows;
    match v
    case Many(cts) => ManyStay(s, disk, name, cts, p);
    case Rows(rows) => RowsStay(s, disk, name, rows, p);
    case _ =>
  }

  /** What a field owns is there when all are saved. */
  lemma {:induction false} OwnedIsThere(disk: bool, fields: seq<Field>, total: nat, k: nat, p: Path)
    requires k < |fields| && Owns(disk, BaseName(disk, total, fields[k].name), fields[k].value, p)
    ensures p in Saved(disk, fields, total)
  {
    hide BaseName, WithField, Owns;
    var n := |fields| - 1;
    var before := Saved(disk, fields[..n], total);
    if k < n {
      OwnedIsThere(disk, fields[..n], total, k, p);
      FieldStays(before, disk, BaseName(disk, total, fields[n].name), fields[n].value, p);
    } else {
      OwnedIsPut(before, disk, BaseName(disk, total, fields[n].name), fields[n].value, p);
    }
  }

  lemma OwnedIsPut(s: Store, disk: bool, name: string, v: Value, p: Path)
    requires Owns(disk, name, v, p)
    ensures p in WithField(s, disk, name, v)
  {
    hide OneKey, ManyKey, CellKey, WithMany, WithRows;
    match v
    case Many(cts) =>
      var i: nat :| i < |cts| && p == ManyKey(disk, name, i);
      ManyStored(s, disk, name, cts, i);
    case Rows(rows) =>
      var b: nat, i: nat :| b < |rows| && i < |rows[b]| && p == CellKey(disk, name, b, i);
      RowsStored(s, disk, name, rows, b, i);
    case _ =>
  }

  function Copies(n: nat): seq<Ct> {
    seq(n, _ => [])
  }

  function CopiesOf(b: nat): seq<seq<Ct>> {
    seq(b, _ => [[]])
  }

  /** The two fields' values, the others' as they are. */
  function With(fields: seq<Field>, j: nat, v: Value, k: nat, w: Value): (r: seq<Field>)
    requires j < |fields| && k < |fields| && j != k
    ensures |r| == |fields| && r[j] == Field(fields[j].name, v) && r[k] == Field(fields[k].name, w)
    ensures forall i :: 0 <= i < |r| && i != j && i != k ==> r[i] == fields[i]
  {
    fields[j := Field(fields[j].name, v)][k := Field(fields[k].name, w)]
  }

  /** A vector with i elements, and the field that is named like the next one. */
  lemma VectorBreaks(disk: bool, fields: seq<Field>, j: nat, k: nat, i: nat) returns (others: seq<Field>)
    requires j < |fields| && k < |fields| && j != k && fields[j].value.Many?
    requires fields[k].value.One? || (disk && fields[k].value.Other?)
    requires fields[k].name == Numbered(fields[j].name, i)
    ensures SameShapes(others, fields) && !ComeBack(disk, others)
  {
    hide Numbered, Saved, ManyKey, OneKey, BaseName;
    var total := |fields|;
    others := With(fields, j, Many(Copies(i)), k, fields[k].value);
    var base := BaseName(disk, total, fields[j].name);
    BaseNumbered(disk, total, fields[k].name, fields[j].name, i);
    OneIsMany(disk, BaseName(disk, total, fields[k].name), base, i);
    OwnedIsThere(disk, others, total, k, ManyKey(disk, base, i));
    assert !FieldReads(disk, others, j, others[j].value);
  }

  /** In a recording: the rows before, and a field named like an element of the next. */
  lemma RowsBreak(fields: seq<Field>, j: nat, k: nat, b: nat, i: nat, w: Value) returns (others: seq<Field>)
    requires j < |fields| && k < |fields| && j != k && fields[j].value.Rows? && SameKind(w, fields[k].value)
    requires Owns(false, BaseName(false, |fields|, fields[k].name), w,
        CellKey(false, BaseName(false, |fields|, fields[j].name), b, i))
    ensures SameShapes(others, fields) && !ComeBack(false, others)
  {
    hide Saved, CellKey, BaseName, Owns;
    var total := |fields|;
    var rows := CopiesOf(b) + (if i == 0 then [] else [Copies(i)]);
    others := With(fields, j, Rows(rows), k, w);
    var base := BaseName(false, total, fields[j].name);
    OwnedIsThere(false, others, total, k, CellKey(false, base, b, i));
    assert Regular(false, Batches(others), others[j].value);
    var s := Saved(false, others, total);
    assert i == 0 ==> |rows| == b;
    assert i > 0 ==> rows[b] == Copies(i) && |rows[b]| == i;
    assert !IsRow(s, false, base, b, if i == 0 then [] else Copies(i));
    assert !FieldReads(false, others, j, others[j].value);
  }

  /** Wherever two fields clash there are values that do not come back, whatever the other
      fields hold. */
  lemma ClashBreaks(disk: bool, fields: seq<Field>, j: nat, k: nat) returns (others: seq<Field>)
    requires j < |fields| && k < |fields| && j != k && Clash(disk, fields[j], fields[k])
    ensures SameShapes(others, fields) && !ComeBack(disk, others)
  {
    hide Numbered, ComeBack, SameShapes, BaseName, ManyKey, OneKey, CellKey;
    var f, g, total := fields[j], fields[k], |fields|;
    if f.value.Many? {
      var i: nat :| g.name == Numbered(f.name, i);
      others := VectorBreaks(disk, fields, j, k, i);
    } else if g.value.Many? {
      var b: nat :| g.name == Numbered(f.name, b);
      BaseNumbered(false, total, g.name, f.name, b);
      ManyIsCell(false, BaseName(false, total, g.name), 0, BaseName(false, total, f.name), b, 0);
      OwnsFirst(BaseName(false, total, g.name), CellKey(false, BaseName(false, total, f.name), b, 0));
      others := RowsBreak(fields, j, k, b, 0, Many([[]]));
    } else {
      var b: nat, i: nat :| g.name == Numbered(Numbered(f.name, b), i);
      BaseNumbered(false, total, Numbered(f.name, b), f.name, b);
      BaseNumbered(false, total, g.name, Numbered(f.name, b), i);
      OneIsCell(false, BaseName(false, total, g.name), BaseName(false, total, f.name), b, i);
      others := RowsBreak(fields, j, k, b, i, g.value);
    }
  }

  lemma OwnsFirst(name: string, p: Path)
    requires p == ManyKey(false, name, 0)
    ensures Owns(false, name, Many([[]]), p)
  {
    hide ManyKey;
    var one: seq<Ct> := [[]];
    assert 0 < |one| && p == ManyKey(false, name, 0);
  }

  /** Fields that are apart come back. */
  lemma ApartComeBack(disk: bool, fields: seq<Field>)
    requires Apart(disk, fields)
    ensures ComeBack(disk, fields)
  {
    hide Saved, BaseName, Apart, FieldReads;
    forall k: nat | k < |fields| && !fields[k].value.Other? && Regular(disk, Batches(fields), fields[k].value)
      ensures FieldReads(disk, fields, k, fields[k].value)
    {
      ReadsItself(disk, fields, k);
    }
  }

  lemma ReadsItself(disk: bool, fields: seq<Field>, k: nat)
    requires Apart(disk, fields) && k < |fields| && !fields[k].value.Other? &&
        Regular(disk, Batches(fields), fields[k].value)
    ensures FieldReads(disk, fields, k, fields[k].value)
  {
    hide Saved, BaseName, Apart, ManyKey, CellKey, OneKey, IsRow;
    FieldKept(disk, fields, k);
    var s, base := Saved(disk, fields, |fields|), BaseName(disk, |fields|, fields[k].name);
    match fields[k].value
    case One(_) =>
    case Many(cts) =>
      NoMoreElements(disk, fields, k);
      forall i | 0 <= i < |cts| ensures HoldsAt(s, ManyKey(disk, base, i), cts[i]) {}
    case Rows(rows) =>
      forall b | 0 <= b < |rows| ensures IsRow(s, disk, base, b, rows[b]) { RowReadsItself(disk, fields, k, b); }
      if !disk { RowReadsItself(disk, fields, k, |rows|); }
  }

  lemma RowReadsItself(disk: bool, fields: seq<Field>, k: nat, b: nat)
    requires Apart(disk, fields) && k < |fields| && fields[k].value.Rows?
    ensures var rows := fields[k].value.rows;
      IsRow(Saved(disk, fields, |fields|), disk, BaseName(disk, |fields|, fields[k].name), b,
          if b < |rows| then rows[b] else [])
  {
    hide Saved, BaseName, Apart, CellKey;
    FieldKept(disk, fields, k);
    NoMoreCells(disk, fields, k, b);
    var rows, base := fields[k].value.rows, BaseName(disk, |fields|, fields[k].name);
    if b < |rows| {
      forall i: nat | i < |rows[b]|
        ensures HoldsAt(Saved(disk, fields, |fields|), CellKey(disk, base, b, i), rows[b][i])
      {}
    }
  }

  /** Every wire of these names and kinds comes back, whatever it holds, if and only if no
      two of its fields clash. */
  lemma ExactlyWhenApart(disk: bool, fields: seq<Field>)
    requires Distinct(fields)
    ensures Apart(disk, fields) <==> forall others: seq<Field> :: SameShapes(others, fields) ==> ComeBack(disk, others)
  {
    hide ComeBack, Clash;
    if Apart(disk, fields) {
      forall others: seq<Field> | SameShapes(others, fields) ensures ComeBack(disk, others) {
        ShapesKeepApart(disk, others, fields);
        ApartComeBack(disk, others);
      }
    } else {
      var j, k :| 0 <= j < |fields| && 0 <= k < |fields| && j != k && Clash(disk, fields[j], fields[k]);
      var others := ClashBreaks(disk, fields, j, k);
    }
  }

  lemma ShapesKeepApart(disk: bool, others: seq<Field>, fields: seq<Field>)
    requires SameShapes(others, fields) && Apart(disk, fields)
    ensures Apart(disk, others)
  {
    hide Numbered;
    forall j, k | 0 <= j < |others| && 0 <= k < |others| && j != k ensures !Clash(disk, others[j], others[k]) {
      assert !Clash(disk, fields[j], fields[k]);
    }
  }

  /** A field named like the next element of another is read as that element, from files and
      from probes. */
  lemma NumberedNameTaken(disk: bool, x: Ct, y: Ct)
    ensures var fields := [Field("a", Many([x])), Field("a_1", One(y))];
      IsRun(Saved(disk, fields, 2), disk, BaseName(disk, 2, "a"), [x, y])
  {
    var f, g := Field("a", Many([x])), Field("a_1", One(y));
    var fields := [f, g];
    var base := BaseName(disk, 2, "a");
    assert fields[..1] == [f] && [f][..0] == [] && [x][..0] == [];
    assert Numbered("a", 1) == "a_1" by { assert Symbolic.Decimal(1) == "1"; }
    BaseNumbered(disk, 2, "a_1", "a", 1);
    OneIsMany(disk, BaseName(disk, 2, "a_1"), base, 1);
    var first, second := ManyKey(disk, base, 0), ManyKey(disk, base, 1);
    forall i: nat | i != 1 ensures ManyKey(disk, base, i) != second {
      if ManyKey(disk, base, i) == second { ManyInjective(disk, base, base, i, 1); }
    }
    forall i: nat | i != 0 ensures ManyKey(disk, base, i) != first {
      if ManyKey(disk, base, i) == first { ManyInjective(disk, base, base, i, 0); }
    }
    hide ManyKey, OneKey, BaseName;
    var none: Store := map[];
    assert WithMany(none, disk, base, []) == none;
    assert WithMany(none, disk, base, [x]) == none[first := x];
    assert Saved(disk, [], 2) == none;
    assert Saved(disk, [f], 2) == WithField(none, disk, base, Many([x])) == map[first := x];
    assert Saved(disk, fields, 2) == map[first := x][second := y];
  }
}
