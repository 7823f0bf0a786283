/**
 * `extract_type2_counts` of logger_once.py: from the text of the charging
 * station's page, how many TYPE 2 connectors it lists and how many of them
 * are free.
 */
module Connectors {
  import opened Wrappers
  import opened Text
  import opened Seqs

  /** The error message raised when the page lists no TYPE 2 connector. */
  const NoType2Message: string := "Aucun connecteur TYPE 2 détecté."

  /** Strip each piece and drop those that strip to nothing. */
  function Clean(pieces: seq<string>): (lines: seq<string>)
    ensures |lines| <= |pieces|
    ensures forall k | 0 <= k < |lines| :: lines[k] != []
  {
    if pieces == [] then []
    else
      var line := Strip(pieces[0]);
      (if line != [] then [line] else []) + Clean(pieces[1..])
  }

  /** One piece is kept in its stripped form, unless it strips to nothing. */
  lemma CleanOne(p: string)
    ensures Clean([p]) == if Strip(p) == [] then [] else [Strip(p)]
  {
    assert [p][1..] == [];
  }

  /** Cleaning works piece by piece: the pieces of two texts clean to the two cleaned lists. */
  lemma {:induction false} CleanAppend(a: seq<string>, c: seq<string>)
    ensures Clean(a + c) == Clean(a) + Clean(c)
  {
    if a != [] {
      assert (a + c)[0] == a[0] && (a + c)[1..] == a[1..] + c;
      CleanAppend(a[1..], c);
      var line := Strip(a[0]);
      AppendAssoc(if line != [] then [line] else [], Clean(a[1..]), Clean(c));
    } else {
      assert a + c == c;
    }
  }

  /** `[ln.strip() for ln in text.splitlines() if ln.strip()]`. */
  function CleanLines(text: string): (lines: seq<string>)
    ensures forall k | 0 <= k < |lines| :: CleanLine(lines[k])
  {
    CleanShape(SplitLines(text));
    Clean(SplitLines(text))
  }

  /** What a line of `lines` looks like: non-empty, no surrounding whitespace, no line boundary. */
  predicate CleanLine(s: string) {
    s != [] && !IsSpace(s[0]) && !IsSpace(s[|s| - 1]) && NoBreak(s)
  }

  lemma StripOneLine(s: string)
    requires NoBreak(s) && Strip(s) != []
    ensures CleanLine(Strip(s))
  {
    var line := Strip(s);
    StripShape(s);
    var i :| PaddedAt(line, s, i);
    assert forall j | 0 <= j < |line| :: line[j] == s[i + j];
  }

  /** Every cleaned line is a stripped, non-empty line of the text. */
  lemma {:induction false} CleanShape(pieces: seq<string>)
    requires forall p | 0 <= p < |pieces| :: NoBreak(pieces[p])
    ensures forall k | 0 <= k < |Clean(pieces)| :: CleanLine(Clean(pieces)[k])
  {
    if pieces != [] {
      var rest := pieces[1..];
      assert forall p | 0 <= p < |rest| :: rest[p] == pieces[p + 1];
      CleanShape(rest);
      var line := Strip(pieces[0]);
      if line != [] {
        StripOneLine(pieces[0]);
        var lines := Clean(pieces);
        assert forall k | 1 <= k < |lines| :: lines[k] == Clean(rest)[k - 1];
      }
    }
  }

  /** Cleaning lines that are already clean changes nothing. */
  lemma {:induction false} CleanKeepsCleanLines(pieces: seq<string>)
    requires forall p | 0 <= p < |pieces| :: CleanLine(pieces[p])
    ensures Clean(pieces) == pieces
  {
    if pieces != [] {
      StripPadded("", pieces[0], "");
      assert "" + pieces[0] + "" == pieces[0];
      CleanKeepsCleanLines(pieces[1..]);
    }
  }

  /** Cleaning is idempotent: the cleaned lines, joined and cleaned again, are the same lines. */
  lemma CleanLinesIdempotent(text: string)
    ensures CleanLines(JoinLines(CleanLines(text))) == CleanLines(text)
  {
    var lines := CleanLines(text);
    SplitJoin(lines);
    CleanKeepsCleanLines(lines);
  }

  /** `ln.upper() == "TYPE 2"`. */
  predicate IsType2(line: string) {
    Upper(line) == "TYPE 2"
  }

  /** `"disponible" in line.lower()`. */
  predicate SaysFree(line: string) {
    Contains(Lower(line), "disponible")
  }

  /** A TYPE 2 line whose next line says the connector is free. */
  predicate FreeType2At(lines: seq<string>, i: int)
    requires 0 <= i < |lines|
  {
    IsType2(lines[i]) && i + 1 < |lines| && SaysFree(lines[i + 1])
  }

  /** The TYPE 2 lines among the first `n`. */
  function Type2Lines(lines: seq<string>, n: nat): set<nat>
    requires n <= |lines|
  {
    set i: nat | i < n && IsType2(lines[i])
  }

  /** The free TYPE 2 lines among the first `n`. */
  function FreeType2Lines(lines: seq<string>, n: nat): set<nat>
    requires n <= |lines|
  {
    set i: nat | i < n && FreeType2At(lines, i)
  }

  lemma Type2LinesStep(lines: seq<string>, n: nat)
    requires n < |lines|
    ensures Type2Lines(lines, n + 1) == Type2Lines(lines, n) + if IsType2(lines[n]) then {n} else {}
    ensures FreeType2Lines(lines, n + 1) == FreeType2Lines(lines, n) + if FreeType2At(lines, n) then {n} else {}
    ensures |Type2Lines(lines, n + 1)| == |Type2Lines(lines, n)| + if IsType2(lines[n]) then 1 else 0
    ensures |FreeType2Lines(lines, n + 1)| == |FreeType2Lines(lines, n)| + if FreeType2At(lines, n) then 1 else 0
  {
    assert n !in Type2Lines(lines, n) && n !in FreeType2Lines(lines, n);
  }

  /** Every free TYPE 2 line is a TYPE 2 line: there are never more free connectors than connectors. */
  lemma FreeAtMostAll(lines: seq<string>, n: nat)
    requires n <= |lines|
    ensures FreeType2Lines(lines, n) <= Type2Lines(lines, n)
    ensures |FreeType2Lines(lines, n)| <= |Type2Lines(lines, n)|
  {
    var free := FreeType2Lines(lines, n);
    var all := Type2Lines(lines, n);
    assert all == free + (all - free);
  }

  /**
   * `extract_type2_counts`: `(available, total)` for the TYPE 2 lines of
   * the cleaned text, or the error when there is none.
   */
  method ExtractType2Counts(text: string) returns (r: Result<(nat, nat), string>)
    ensures var lines := CleanLines(text);
      && (r.Success? <==> |Type2Lines(lines, |lines|)| > 0)
      && (r.Success? ==> r.value == (|FreeType2Lines(lines, |lines|)|, |Type2Lines(lines, |lines|)|))
      && (r.Success? ==> 1 <= r.value.1 && r.value.0 <= r.value.1)
      && (r.Failure? ==> r.error == NoType2Message)
  {
    var lines := CleanLines(text);
    var total: nat := 0;
    var available: nat := 0;
    var i := 0;
    while i < |lines|
      invariant 0 <= i <= |lines|
      invariant total == |Type2Lines(lines, i)|
      invariant available == |FreeType2Lines(lines, i)|
    {
      Type2LinesStep(lines, i);
      ghost var before := (total, available);
      if Upper(lines[i]) == "TYPE 2" {
        total := total + 1;
        if i + 1 < |lines| && Contains(Lower(lines[i + 1]), "disponible") {
          available := available + 1;
        }
      }
      assert total == before.0 + if IsType2(lines[i]) then 1 else 0;
      assert available == before.1 + if FreeType2At(lines, i) then 1 else 0;
      i := i + 1;
    }
    if total == 0 {
      return Failure(NoType2Message);
    }
    FreeAtMostAll(lines, |lines|);
    return Success((available, total));
  }
}
