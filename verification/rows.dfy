/**
 * One CSV row as `csv.DictReader` yields it, and the lenient field readers
 * both report scripts apply to it (`safe_norm_key`, `get_ts_from_row`,
 * `to_int_or_zero`).
 */
module Rows {
  import opened Wrappers
  import opened Text

  /**
   * One column of a row. The key is `None` for the surplus-field column and
   * the value is `None` for a field missing from a short line.
   */
  datatype Entry = Entry(key: Option<string>, value: Option<string>)

  /** A row in column order, as a Python dict keeps insertion order. */
  type Row = seq<Entry>

  /** The byte-order mark a UTF-8 file may leave on its first header. */
  const BOM: char := '\U{FEFF}'

  /** `safe_norm_key`: leading BOMs dropped, whitespace stripped, lower-cased. */
  function NormKey(k: Option<string>): (r: Option<string>)
    ensures r.Some? <==> k.Some?
    ensures r.Some? ==> forall i | 0 <= i < |r.value| :: !('A' <= r.value[i] <= 'Z')
    ensures r.Some? && r.value != [] ==> !IsSpace(r.value[0]) && !IsSpace(r.value[|r.value| - 1])
  {
    match k
    case None => None
    case Some(s) =>
      var t := Strip(LStrip(s, BOM));
      StripShape(LStrip(s, BOM));
      LowerAt(t);
      Some(Lower(t))
  }

  /** The key of every column, in column order. */
  function Keys(row: Row): (ks: seq<Option<string>>)
    ensures |ks| == |row|
    ensures forall i | 0 <= i < |row| :: ks[i] == row[i].key
  {
    if row == [] then [] else Keys(row[..|row| - 1]) + [row[|row| - 1].key]
  }

  /**
   * `row.get(key)`. `csv.DictReader` builds the row with `dict(zip(...))`, so
   * when a header name repeats the last column carrying it supplies the value.
   */
  function Lookup(row: Row, key: string): (v: Option<string>)
    ensures var i := LastMatch(Keys(row), key); i.Some? ==> v == row[i.value].value
    ensures LastMatch(Keys(row), key).None? ==> v == None
  {
    if row == [] then None
    else if row[|row| - 1].key == Some(key) then row[|row| - 1].value
    else
      assert Keys(row) == Keys(row[..|row| - 1]) + [row[|row| - 1].key];
      Lookup(row[..|row| - 1], key)
  }

  /** With `available` twice in the header, the second column's value is read. */
  lemma LookupRepeatedHeader()
    ensures Lookup([Entry(Some("available"), Some("1")), Entry(Some("available"), Some("0"))], "available") == Some("0")
  {
  }

  /**
   * The normalised names `get_ts_from_row` sees while walking `row.keys()`.
   * The dict keeps a repeated header at the place of its first column, so a
   * later column with a key already seen contributes no name (`None`).
   */
  function DictKeyNorms(row: Row): (ks: seq<Option<string>>)
    ensures |ks| == |row|
    ensures forall i | 0 <= i < |row| :: ks[i].Some? ==> row[i].key.Some?
  {
    if row == [] then []
    else
      var front := row[..|row| - 1];
      var e := row[|row| - 1];
      DictKeyNorms(front) + [if e.key in Keys(front) then None else NormKey(e.key)]
  }

  /** Column `i` names a dict key exactly when its key is not in an earlier column. */
  lemma {:induction false} DictKeyNormsAt(row: Row, i: nat)
    requires i < |row|
    ensures DictKeyNorms(row)[i] == if row[i].key in Keys(row[..i]) then None else NormKey(row[i].key)
  {
    var front := row[..|row| - 1];
    if i < |front| {
      DictKeyNormsAt(front, i);
      assert front[..i] == row[..i];
    }
  }

  /** Index of the last name equal to `nk`. */
  function LastMatch(ks: seq<Option<string>>, nk: string): (r: Option<nat>)
    ensures r.Some? ==> r.value < |ks| && ks[r.value] == Some(nk)
    ensures r.Some? ==> forall j | r.value < j < |ks| :: ks[j] != Some(nk)
    ensures r.None? <==> forall j | 0 <= j < |ks| :: ks[j] != Some(nk)
  {
    if ks == [] then None
    else if ks[|ks| - 1] == Some(nk) then Some(|ks| - 1)
    else LastMatch(ks[..|ks| - 1], nk)
  }

  /** Index of the first column that has a key at all. */
  function FirstKeyed(row: Row): (r: Option<nat>)
    ensures r.Some? ==> r.value < |row| && row[r.value].key.Some?
    ensures r.Some? ==> forall j | 0 <= j < r.value :: row[j].key.None?
    ensures r.None? <==> forall j | 0 <= j < |row| :: row[j].key.None?
  {
    if row == [] then None
    else if row[0].key.Some? then Some(0)
    else
      var r := FirstKeyed(row[1..]);
      if r.Some? then Some(r.value + 1) else None
  }

  /**
   * The `norm` dict of `get_ts_from_row`: normalised key to original key,
   * built over the dict's keys in their order, so that a later key with the
   * same normalised name overwrites an earlier one. A column whose key was
   * already seen is no new dict key and is skipped.
   */
  function NormIndex(row: Row): map<string, string> {
    if row == [] then map[]
    else
      var front := row[..|row| - 1];
      var e := row[|row| - 1];
      var m := NormIndex(front);
      if e.key.Some? && e.key !in Keys(front) then m[NormKey(e.key).value := e.key.value] else m
  }

  /**
   * Each normalised name maps to the last dict key carrying it, and a name
   * is absent exactly when no dict key normalises to it.
   */
  lemma {:induction false} NormIndexLastWins(row: Row, nk: string)
    ensures nk in NormIndex(row) <==> LastMatch(DictKeyNorms(row), nk).Some?
    ensures nk in NormIndex(row) ==> NormIndex(row)[nk] == row[LastMatch(DictKeyNorms(row), nk).value].key.value
  {
    if row != [] {
      var front := row[..|row| - 1];
      var e := row[|row| - 1];
      NormIndexLastWins(front, nk);
      var k := if e.key in Keys(front) then None else NormKey(e.key);
      var m := NormIndex(front);
      assert DictKeyNorms(row) == DictKeyNorms(front) + [k];
      assert NormIndex(row) == if k.Some? then m[k.value := e.key.value] else m;
      LastMatchSnoc(DictKeyNorms(front), k, nk);
    }
  }

  lemma LastMatchSnoc(ks: seq<Option<string>>, k: Option<string>, nk: string)
    ensures LastMatch(ks + [k], nk) == if k == Some(nk) then Some(|ks|) else LastMatch(ks, nk)
  {
    assert (ks + [k])[..|ks|] == ks;
  }

  /**
   * `get_ts_from_row`: the value under the last dict key whose normalised
   * name is `timestamp`, else `timestamp_utc`, else the first keyed column;
   * `None` when no column has a key.
   */
  function TimestampOf(row: Row): (v: Option<string>)
    ensures var ts := LastMatch(DictKeyNorms(row), "timestamp");
      ts.Some? ==> v == Lookup(row, row[ts.value].key.value)
    ensures var ts := LastMatch(DictKeyNorms(row), "timestamp");
      var utc := LastMatch(DictKeyNorms(row), "timestamp_utc");
      ts.None? && utc.Some? ==> v == Lookup(row, row[utc.value].key.value)
    ensures var first := FirstKeyed(row);
      LastMatch(DictKeyNorms(row), "timestamp").None? && LastMatch(DictKeyNorms(row), "timestamp_utc").None? && first.Some? ==>
      v == Lookup(row, row[first.value].key.value)
    ensures (forall j | 0 <= j < |row| :: row[j].key.None?) ==> v == None
  {
    NormIndexLastWins(row, "timestamp");
    NormIndexLastWins(row, "timestamp_utc");
    var norm := NormIndex(row);
    if "timestamp" in norm then Lookup(row, norm["timestamp"])
    else if "timestamp_utc" in norm then Lookup(row, norm["timestamp_utc"])
    else
      var first := FirstKeyed(row);
      if first.Some? then Lookup(row, row[first.value].key.value) else None
  }

  /**
   * With the header `timestamp,Timestamp,timestamp` the dict has the keys
   * `timestamp` and `Timestamp`; the later one wins the normalised name, so
   * the second column is read.
   */
  lemma TimestampRepeatedHeader()
    ensures TimestampOf([Entry(Some("timestamp"), Some("x")), Entry(Some("Timestamp"), Some("y")),
                         Entry(Some("timestamp"), Some("z"))]) == Some("y")
  {
    var row := [Entry(Some("timestamp"), Some("x")), Entry(Some("Timestamp"), Some("y")),
                Entry(Some("timestamp"), Some("z"))];
    RepeatedHeaderIndex(row);
    assert row[..2][..1] == row[..1];
    assert Lookup(row, "Timestamp") == Lookup(row[..2], "Timestamp");
  }

  /** The third column repeats a key already in the dict, so it leaves `norm` unchanged. */
  lemma RepeatedHeaderIndex(row: Row)
    requires row == [Entry(Some("timestamp"), Some("x")), Entry(Some("Timestamp"), Some("y")),
                     Entry(Some("timestamp"), Some("z"))]
    ensures "timestamp" in NormIndex(row) && NormIndex(row)["timestamp"] == "Timestamp"
  {
    var two := row[..2];
    RepeatedHeaderTwo(two);
    assert Some("timestamp") in Keys(two);
  }

  /** After two columns `norm` maps `timestamp` to the later key, `Timestamp`. */
  lemma RepeatedHeaderTwo(two: Row)
    requires two == [Entry(Some("timestamp"), Some("x")), Entry(Some("Timestamp"), Some("y"))]
    ensures Keys(two) == [Some("timestamp"), Some("Timestamp")]
    ensures "timestamp" in NormIndex(two) && NormIndex(two)["timestamp"] == "Timestamp"
  {
    TimestampNorms();
    assert two[..1] == [two[0]];
  }

  /** Both spellings in the example normalise to `timestamp`. */
  lemma TimestampNorms()
    ensures NormKey(Some("timestamp")) == Some("timestamp")
    ensures NormKey(Some("Timestamp")) == Some("timestamp")
  {
    NormKeyOfPlain("timestamp");
    NormKeyOfPlain("Timestamp");
    LowerTimestamp();
  }

  /** Lower-casing the two spellings in the example. */
  lemma LowerTimestamp()
    ensures Lower("timestamp") == "timestamp" && Lower("Timestamp") == "timestamp"
  {
    LowerAt("timestamp");
    LowerAt("Timestamp");
  }

  /** A name without BOM or surrounding whitespace is only lower-cased. */
  lemma NormKeyOfPlain(name: string)
    requires name != [] && name[0] != BOM && !IsSpace(name[0]) && !IsSpace(name[|name| - 1])
    ensures NormKey(Some(name)) == Some(Lower(name))
  {
  }

  /** `to_int_or_zero`: the stripped text read as an integer, or 0 when it is not one. */
  function ToIntOrZero(v: Option<string>): (n: int)
    ensures n != 0 ==> v.Some? && ParseInt(Strip(v.value)) == Some(n)
  {
    match v
    case None => 0  // str(None) is "None", which int() refuses
    case Some(s) => ParseInt(Strip(s)).GetOr(0)
  }

  /** Any whitespace padding around a printed integer reads back as that integer. */
  lemma ToIntOrZeroPadded(pre: string, n: int, post: string)
    requires AllSpace(pre) && AllSpace(post)
    ensures ToIntOrZero(Some(pre + ShowInt(n) + post)) == n
  {
    StripPadded(pre, ShowInt(n), post);
    ParseShowInt(n);
  }

  /** A value that is not a signed numeral after stripping counts as zero. */
  lemma ToIntOrZeroNonNumeric(s: string)
    requires forall i | 0 <= i < |Strip(s)| :: !IsDigit(Strip(s)[i])
    ensures ToIntOrZero(Some(s)) == 0
  {
    var t := Strip(s);
    if |t| > 1 && (t[0] == '+' || t[0] == '-') {
      assert !IsDigit(t[1..][0]);
    }
  }

  /**
   * A header spelled with any number of leading BOMs, surrounding whitespace
   * and any ASCII capitalisation normalises to the lower-cased name, whatever
   * the name holds between its first and last character.
   */
  lemma {:induction false} NormKeyTolerant(boms: string, pre: string, name: string, post: string)
    requires forall i | 0 <= i < |boms| :: boms[i] == BOM
    requires AllSpace(pre) && AllSpace(post)
    requires name != [] && name[0] != BOM && !IsSpace(name[0]) && !IsSpace(name[|name| - 1])
    ensures NormKey(Some(boms + pre + name + post)) == Some(Lower(name))
  {
    var rest := pre + name + post;
    assert rest[0] != BOM by {
      if pre == [] { assert rest[0] == name[0]; }
    }
    LStripBoms(boms, rest);
    assert boms + pre + name + post == boms + rest;
    var stripped := LStrip(boms + rest, BOM);
    assert stripped == rest;
    StripPadded(pre, name, post);
    assert Strip(stripped) == name;
  }

  lemma {:induction false} LStripBoms(boms: string, rest: string)
    requires forall i | 0 <= i < |boms| :: boms[i] == BOM
    requires rest == [] || rest[0] != BOM
    ensures LStrip(boms + rest, BOM) == rest
  {
    if boms != [] {
      assert (boms + rest)[1..] == boms[1..] + rest;
      LStripBoms(boms[1..], rest);
    }
  }
}
