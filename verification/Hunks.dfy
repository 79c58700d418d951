/** The validator of unified-diff hunks: each header declares how many old and new lines its body
    has, and a hunk whose body disagrees is reported. */
module Hunks {
  import opened Lists
  import opened Text
  import opened Decimal
  import opened Numerals
  import opened JsonValues

  datatype HunkError = HunkError(header: string, oldDeclared: nat, newDeclared: nat, oldCounted: nat, newCounted: nat)

  // ---------------------------------------------------------------- one line

  /** `\d+(?:,(\d+))?`: the count, 1 when there is none, and the rest. */
  function Range(s: string): Option<(nat, string)> {
    var n := DigitRun(s);
    if n == 0 then None
    else
      var t := s[n..];
      if t != "" && t[0] == ',' && DigitRun(t[1..]) > 0 then
        var k := DigitRun(t[1..]);
        Some((Value(t[1..][..k]), t[1..][k..]))
      else Some((1, t))
  }

  /** The counts that a header line `@@ -a,b +c,d @@` declares. */
  function Declared(line: string): Option<(nat, nat)> {
    if !Starts(line, "@@ -") then None
    else
      var a := Range(line[4..]);
      if a.None? || !Starts(a.value.1, " +") then None
      else
        var b := Range(a.value.1[2..]);
        if b.None? || !Starts(b.value.1, " @@") then None else Some((a.value.0, b.value.0))
  }

  datatype Kind = Context | Removed | Added | NoNewline | Stop

  function KindOf(line: string): Kind {
    if line == "" then Context
    else if line[0] == '\\' then NoNewline
    else if Starts(line, "--- ") || Starts(line, "+++ ") then Stop
    else if line[0] == '+' then Added
    else if line[0] == '-' then Removed
    else if line[0] == ' ' then Context
    else Stop
  }

  // ---------------------------------------------------------------- the scan

  /** How many lines belong to the body at the start. */
  function BodyLength(ls: seq<string>): (n: nat)
    ensures n <= |ls|
  {
    if ls == [] || KindOf(ls[0]).Stop? then 0 else 1 + BodyLength(ls[1..])
  }

  function Count(ls: seq<string>, kind: Kind): nat {
    if ls == [] then 0 else (if KindOf(ls[0]) == kind then 1 else 0) + Count(ls[1..], kind)
  }

  function Verdict(header: string, declared: (nat, nat), body: seq<string>): seq<HunkError> {
    var a, b := Count(body, Context) + Count(body, Removed), Count(body, Context) + Count(body, Added);
    if a != declared.0 || b != declared.1 then [HunkError(header, declared.0, declared.1, a, b)] else []
  }

  function Validate(ls: seq<string>): seq<HunkError>
    decreases |ls|
  {
    if ls == [] then []
    else if Declared(ls[0]).None? then Validate(ls[1..])
    else
      var n := BodyLength(ls[1..]);
      Verdict(ls[0], Declared(ls[0]).value, ls[1..][..n]) + Validate(ls[1..][n..])
  }

  lemma {:induction false} CountMore(ls: seq<string>, line: string, kind: Kind)
    ensures Count(ls + [line], kind) == Count(ls, kind) + if KindOf(line) == kind then 1 else 0
  {
    hide KindOf;
    if ls == [] {
      assert ls + [line] == [line] && [line][1..] == [];
    } else {
      assert (ls + [line])[0] == ls[0] && (ls + [line])[1..] == ls[1..] + [line];
      CountMore(ls[1..], line, kind);
    }
  }

  lemma BodyGrows(ls: seq<string>, start: nat, i: nat)
    requires start <= i < |ls|
    ensures ls[start..i + 1] == ls[start..i] + [ls[i]]
    ensures KindOf(ls[i]).Stop? ==> BodyLength(ls[i..]) == 0
    ensures !KindOf(ls[i]).Stop? ==> BodyLength(ls[i..]) == 1 + BodyLength(ls[i + 1..])
    ensures forall kind :: Count(ls[start..i + 1], kind) == Count(ls[start..i], kind) + if KindOf(ls[i]) == kind then 1 else 0
  {
    hide KindOf;
    assert ls[i..][1..] == ls[i + 1..];
    assert ls[start..i + 1] == ls[start..i] + [ls[i]];
    forall kind ensures Count(ls[start..i + 1], kind) == Count(ls[start..i], kind) + if KindOf(ls[i]) == kind then 1 else 0 {
      CountMore(ls[start..i], ls[i], kind);
    }
  }

  lemma ValidateAt(ls: seq<string>, i: nat)
    requires i < |ls|
    ensures Declared(ls[i]).None? ==> Validate(ls[i..]) == Validate(ls[i + 1..])
    ensures Declared(ls[i]).Some? ==>
              var n := BodyLength(ls[i + 1..]);
              forall out: seq<HunkError> ::
                out + Verdict(ls[i], Declared(ls[i]).value, ls[i + 1..i + 1 + n]) + Validate(ls[i + 1 + n..]) == out + Validate(ls[i..])
  {
    hide Declared, BodyLength, Verdict;
    assert ls[i..][1..] == ls[i + 1..];
    if Declared(ls[i]).Some? {
      var n := BodyLength(ls[i + 1..]);
      assert ls[i + 1..][..n] == ls[i + 1..i + 1 + n] && ls[i + 1..][n..] == ls[i + 1 + n..];
      var v, rest := Verdict(ls[i], Declared(ls[i]).value, ls[i + 1..i + 1 + n]), Validate(ls[i + 1 + n..]);
      assert Validate(ls[i..]) == v + rest;
      forall out: seq<HunkError> ensures out + v + rest == out + (v + rest) {}
    }
  }

  /** `validate_patch_hunks` */
  method ValidatePatchHunks(patch: string) returns (errors: seq<HunkError>)
    ensures errors == Validate(Lines(patch))
  {
    hide Declared, BodyLength, Validate, Count, Lines;
    errors := [];
    var lines := Lines(patch);
    var i := 0;
    assert lines[0..] == lines;
    while i < |lines|
      invariant i <= |lines|
      invariant errors + Validate(lines[i..]) == Validate(lines)
      decreases |lines| - i
    {
      ValidateAt(lines, i);
      var declared := Declared(lines[i]);
      if declared.None? {
        i := i + 1;
        continue;
      }
      var header := lines[i];
      i := i + 1;
      ghost var start := i;
      assert lines[start..start] == [];
      CountNothing();
      var ctx, rem, add := 0, 0, 0;
      while i < |lines|
        invariant start <= i <= |lines|
        invariant BodyLength(lines[start..]) == i - start + BodyLength(lines[i..])
        invariant ctx == Count(lines[start..i], Context)
        invariant rem == Count(lines[start..i], Removed)
        invariant add == Count(lines[start..i], Added)
      {
        var ln := lines[i];
        BodyGrows(lines, start, i);
        if ln == "" {
          ctx := ctx + 1;
          i := i + 1;
          continue;
        }
        if ln[0] == '\\' {
          i := i + 1;
          continue;
        }
        if Starts(ln, "--- ") || Starts(ln, "+++ ") {
          break;
        }
        if ln[0] == '+' {
          add := add + 1;
        } else if ln[0] == '-' {
          rem := rem + 1;
        } else if ln[0] == ' ' {
          ctx := ctx + 1;
        } else {
          break;
        }
        i := i + 1;
      }
      assert i == |lines| ==> lines[i..] == [] && BodyLength(lines[i..]) == 0;
      if ctx + rem != declared.value.0 || ctx + add != declared.value.1 {
        errors := errors + [HunkError(header, declared.value.0, declared.value.1, ctx + rem, ctx + add)];
      }
      Unchanged(errors);
    }
    assert lines[|lines|..] == [];
    NothingToValidate();
    Unchanged(errors);
  }

  lemma CountNothing()
    ensures forall kind :: Count([], kind) == 0
  {
  }

  lemma NothingToValidate()
    ensures Validate([]) == []
  {
  }

  lemma Unchanged(errors: seq<HunkError>)
    ensures errors + [] == errors
  {
  }
}
