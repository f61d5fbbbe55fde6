/** A wire's ciphertexts, saved and loaded again: as files under a directory, or as named
    probes of a recording that a replay asks for. */
module Wires {
  import opened Symbolic

  type Ct = seq<real>

  type Path = seq<string>

  type Store = map<Path, Ct>

  /** The value of one field, by its type: enc, vec<enc>, vec<vec<enc>>, or another. */
  datatype Value =
    | One(ct: Ct)
    | Many(cts: seq<Ct>)
    | Rows(rows: seq<seq<Ct>>)
    | Other(ct: Ct)

  datatype Field = Field(name: string, value: Value)

  // ----- keys -----

  function Zeros(n: nat): string {
    if n == 0 then "" else "0" + Zeros(n - 1)
  }

  /** `std::setw(4) << std::setfill('0')` */
  function Pad(n: nat): string {
    var d := Decimal(n);
    if |d| < 4 then Zeros(4 - |d|) + d else d
  }

  function Numbered(name: string, i: nat): string {
    name + "_" + Decimal(i)
  }

  function Padded(name: string, i: nat): string {
    name + "_" + Pad(i)
  }

  function Batch(b: nat): string {
    "batch" + Pad(b)
  }

  const EXT := ".bin"

  /** Where a ciphertext is kept: on disk, or under the name of a probe. */
  function OneKey(disk: bool, name: string): Path {
    if disk then [name + EXT] else [name]
  }

  function ManyKey(disk: bool, name: string, i: nat): Path {
    if disk then [Numbered(name, i) + EXT] else [Numbered(name, i)]
  }

  function CellKey(disk: bool, name: string, b: nat, i: nat): Path {
    if disk then [Batch(b), Padded(name, i) + EXT] else [Numbered(Numbered(name, b), i)]
  }

  // ----- saving -----

  function WithMany(s: Store, disk: bool, name: string, cts: seq<Ct>): Store {
    if |cts| == 0 then s
    else WithMany(s, disk, name, cts[..|cts| - 1])[ManyKey(disk, name, |cts| - 1) := cts[|cts| - 1]]
  }

  function WithRow(s: Store, disk: bool, name: string, b: nat, row: seq<Ct>): Store {
    if |row| == 0 then s
    else WithRow(s, disk, name, b, row[..|row| - 1])[CellKey(disk, name, b, |row| - 1) := row[|row| - 1]]
  }

  function WithRows(s: Store, disk: bool, name: string, rows: seq<seq<Ct>>): Store {
    if |rows| == 0 then s
    else WithRow(WithRows(s, disk, name, rows[..|rows| - 1]), disk, name, |rows| - 1, rows[|rows| - 1])
  }

  /** A plain field is a file like an enc field's, and no probe. */
  function WithField(s: Store, disk: bool, name: string, v: Value): Store {
    match v
    case One(ct) => s[OneKey(disk, name) := ct]
    case Many(cts) => WithMany(s, disk, name, cts)
    case Rows(rows) => WithRows(s, disk, name, rows)
    case Other(ct) => if disk then s[OneKey(disk, name) := ct] else s
  }

  /** A field's name on disk is its own; a probe's says that it is a result's, and of
      which field when there are several. */
  function BaseName(disk: bool, fields: nat, name: string): string {
    if disk then name else if fields == 1 then "result" else "result_" + name
  }

  function Saved(disk: bool, fields: seq<Field>, total: nat): Store {
    if |fields| == 0 then map[]
    else
      var f := fields[|fields| - 1];
      WithField(Saved(disk, fields[..|fields| - 1], total), disk, BaseName(disk, total, f.name), f.value)
  }

  /** How many batch directories a field's rows make. */
  function RowCount(v: Value): nat {
    if v.Rows? then |v.rows| else 0
  }

  function Batches(fields: seq<Field>): nat {
    if |fields| == 0 then 0
    else
      var before, here := Batches(fields[..|fields| - 1]), RowCount(fields[|fields| - 1].value);
      if before < here then here else before
  }

  /** The loops of the generated serialization. */
  method SaveMany(s: Store, disk: bool, name: string, cts: seq<Ct>) returns (r: Store)
    ensures r == WithMany(s, disk, name, cts)
  {
    hide ManyKey;
    r := s;
    for i := 0 to |cts|
      invariant r == WithMany(s, disk, name, cts[..i])
    {
      assert cts[..i + 1][..i] == cts[..i];
      r := r[ManyKey(disk, name, i) := cts[i]];
    }
    assert cts[..|cts|] == cts;
  }

  method SaveRow(s: Store, disk: bool, name: string, b: nat, row: seq<Ct>) returns (r: Store)
    ensures r == WithRow(s, disk, name, b, row)
  {
    hide CellKey;
    r := s;
    for i := 0 to |row|
      invariant r == WithRow(s, disk, name, b, row[..i])
    {
      assert row[..i + 1][..i] == row[..i];
      r := r[CellKey(disk, name, b, i) := row[i]];
    }
    assert row[..|row|] == row;
  }

  method SaveRows(s: Store, disk: bool, name: string, rows: seq<seq<Ct>>) returns (r: Store, dirs: nat)
    ensures r == WithRows(s, disk, name, rows) && dirs == |rows|
  {
    hide WithRow;
    r, dirs := s, 0;
    for b := 0 to |rows|
      invariant r == WithRows(s, disk, name, rows[..b]) && dirs == b
    {
      assert rows[..b + 1][..b] == rows[..b];
      dirs := dirs + 1;
      r := SaveRow(r, disk, name, b, rows[b]);
    }
    assert rows[..|rows|] == rows;
  }

  /** _gen_serialize_wire and the probe form of _gen_result_io: every field in order. */
  method Save(disk: bool, fields: seq<Field>) returns (s: Store, dirs: nat)
    ensures s == Saved(disk, fields, |fields|) && dirs == Batches(fields)
  {
    hide WithRows, WithMany, BaseName;
    s, dirs := map[], 0;
    for k := 0 to |fields|
      invariant s == Saved(disk, fields[..k], |fields|) && dirs == Batches(fields[..k])
    {
      assert fields[..k + 1][..k] == fields[..k];
      var name := BaseName(disk, |fields|, fields[k].name);
      match fields[k].value {
        case One(ct) => s := s[OneKey(disk, name) := ct];
        case Many(cts) => s := SaveMany(s, disk, name, cts);
        case Rows(rows) =>
          var made;
          s, made := SaveRows(s, disk, name, rows);
          if dirs < made { dirs := made; }
        case Other(ct) => if disk { s := s[OneKey(disk, name) := ct]; }
      }
    }
    assert fields[..|fields|] == fields;
  }
}
