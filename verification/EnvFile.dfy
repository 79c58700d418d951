/** The durable `.env` of a worktree: reading, updating and releasing its assignments. */
module EnvFile {
  import opened Lists
  import opened Text

  type Env = map<string, string>
  type Updates = seq<(string, string)>

  /** A real `KEY=value` line: not blank, not a comment. */
  function Assignment(line: string): Option<(string, string)> {
    var st := Strip(line);
    if st == "" || st[0] == '#' || '=' !in st then None
    else
      var i := Find(st, '=');
      Some((Strip(st[..i]), Strip(st[i + 1..])))
  }

  predicate Assigns(line: string, key: string) {
    Assignment(line).Some? && Assignment(line).value.0 == key
  }

  /** Last assignment wins. */
  function ParseLines(ls: seq<string>): Env {
    if ls == [] then map[]
    else
      var m := ParseLines(ls[..|ls| - 1]);
      var a := Assignment(ls[|ls| - 1]);
      if a.None? then m else m[a.value.0 := a.value.1]
  }

  function Parse(text: string): Env {
    ParseLines(Lines(text))
  }

  /** `parse_env` */
  method ParseEnv(text: string) returns (result: Env)
    ensures result == Parse(text)
  {
    hide Assignment, Lines;
    result := map[];
    var ls := Lines(text);
    for i := 0 to |ls|
      invariant result == ParseLines(ls[..i])
    {
      assert ls[..i + 1][..i] == ls[..i];
      var a := Assignment(ls[i]);
      if a.Some? {
        result := result[a.value.0 := a.value.1];
      }
    }
    assert ls[..|ls|] == ls;
  }

  /** The end both writers share: joined lines, and the original's final line break. */
  method Rewrite(text: string, outLines: seq<string>) returns (result: string)
    ensures result == Rewritten(text, outLines)
  {
    hide Join;
    result := Join(outLines);
    if text == "" || EndsWithLF(text) {
      result := result + [LF];
    } else {
      assert result == result + "";
    }
  }

  // ---------------------------------------------------------------- updates, in dict order

  function Keys(u: Updates): set<string> {
    set p | p in u :: p.0
  }

  ghost predicate Dict(u: Updates) {
    forall i, j :: 0 <= i < j < |u| ==> u[i].0 != u[j].0
  }

  function Lookup(u: Updates, key: string): Option<string> {
    if u == [] then None else if u[0].0 == key then Some(u[0].1) else Lookup(u[1..], key)
  }

  function Drop(u: Updates, key: string): Updates {
    if u == [] then [] else if u[0].0 == key then u[1..] else [u[0]] + Drop(u[1..], key)
  }

  function Rendered(p: (string, string)): string {
    p.0 + "=" + p.1
  }

  function RenderedAll(u: Updates): seq<string> {
    if u == [] then [] else [Rendered(u[0])] + RenderedAll(u[1..])
  }

  /** A key and a value that a written line reads back as. */
  ghost predicate Writable(p: (string, string)) {
    && Stripped(p.0) && OneLine(p.0) && '=' !in p.0 && (p.0 == "" || p.0[0] != '#')
    && Stripped(p.1) && OneLine(p.1)
  }

  ghost predicate WritableAll(u: Updates) {
    Dict(u) && forall i :: 0 <= i < |u| ==> Writable(u[i])
  }

  // ---------------------------------------------------------------- merge

  /** The lines of `merge_env_vars`: `u` holds the keys not written yet. */
  function MergeLines(ls: seq<string>, u: Updates): seq<string>
    decreases |ls|
  {
    if ls == [] then RenderedAll(u)
    else
      var a := Assignment(ls[0]);
      if a.Some? && Lookup(u, a.value.0).Some? then
        [Rendered((a.value.0, Lookup(u, a.value.0).value))] + MergeLines(ls[1..], Drop(u, a.value.0))
      else [ls[0]] + MergeLines(ls[1..], u)
  }

  function Merge(text: string, u: Updates): string {
    Rewritten(text, MergeLines(Lines(text), u))
  }

  lemma MergeEnd(u: Updates)
    ensures MergeLines([], u) == RenderedAll(u)
  {
  }

  lemma MergeNext(ls: seq<string>, u: Updates, i: nat)
    requires i < |ls|
    ensures var a := Assignment(ls[i]);
            var merged := MergeLines(ls[i..], u);
            && merged != []
            && if a.Some? && Lookup(u, a.value.0).Some? then
                 merged[0] == Rendered((a.value.0, Lookup(u, a.value.0).value)) &&
                 merged[1..] == MergeLines(ls[i + 1..], Drop(u, a.value.0))
               else merged[0] == ls[i] && merged[1..] == MergeLines(ls[i + 1..], u)
  {
    hide Assignment, Lookup, Drop, Rendered;
    assert ls[i..][1..] == ls[i + 1..];
  }

  lemma Shift(a: seq<string>, x: string, b: seq<string>)
    ensures a + ([x] + b) == a + [x] + b
  {
  }

  /** `merge_env_vars` */
  method MergeEnvVars(text: string, updates: Updates) returns (result: string)
    ensures result == Merge(text, updates)
  {
    hide Assignment, Lines, Join, Lookup, Drop, RenderedAll, Rendered, MergeLines;
    var remaining := updates;
    var outLines: seq<string> := [];
    var ls := Lines(text);
    assert ls[0..] == ls;
    for i := 0 to |ls|
      invariant outLines + MergeLines(ls[i..], remaining) == MergeLines(ls, updates)
    {
      var a := Assignment(ls[i]);
      MergeNext(ls, remaining, i);
      Shift(outLines, MergeLines(ls[i..], remaining)[0], MergeLines(ls[i..], remaining)[1..]);
      if a.Some? && Lookup(remaining, a.value.0).Some? {
        outLines := outLines + [Rendered((a.value.0, Lookup(remaining, a.value.0).value))];
        remaining := Drop(remaining, a.value.0);
      } else {
        outLines := outLines + [ls[i]];
      }
    }
    assert ls[|ls|..] == [] && MergeLines([], remaining) == RenderedAll(remaining) by { MergeEnd(remaining); }
    outLines := outLines + RenderedAll(remaining);
    result := Rewrite(text, outLines);
  }

  // ---------------------------------------------------------------- remove

  function RemoveLines(ls: seq<string>, keys: set<string>): seq<string> {
    if ls == [] then []
    else
      var a := Assignment(ls[0]);
      (if a.Some? && a.value.0 in keys then [] else [ls[0]]) + RemoveLines(ls[1..], keys)
  }

  function Remove(text: string, keys: set<string>): string {
    Rewritten(text, RemoveLines(Lines(text), keys))
  }

  lemma RemoveEnd(keys: set<string>)
    ensures RemoveLines([], keys) == []
  {
  }

  lemma RemoveNext(ls: seq<string>, keys: set<string>, i: nat)
    requires i < |ls|
    ensures var a := Assignment(ls[i]);
            RemoveLines(ls[i..], keys) ==
            (if a.Some? && a.value.0 in keys then RemoveLines(ls[i + 1..], keys) else [ls[i]] + RemoveLines(ls[i + 1..], keys))
  {
    hide Assignment;
    assert ls[i..][1..] == ls[i + 1..];
    assert [] + RemoveLines(ls[i + 1..], keys) == RemoveLines(ls[i + 1..], keys);
  }

  /** `remove_env_vars` */
  method RemoveEnvVars(text: string, keys: set<string>) returns (result: string)
    ensures result == Remove(text, keys)
  {
    hide Assignment, Lines, Join, RemoveLines;
    var outLines: seq<string> := [];
    var ls := Lines(text);
    assert ls[0..] == ls;
    for i := 0 to |ls|
      invariant outLines + RemoveLines(ls[i..], keys) == RemoveLines(ls, keys)
    {
      RemoveNext(ls, keys, i);
      Shift(outLines, ls[i], RemoveLines(ls[i + 1..], keys));
      var a := Assignment(ls[i]);
      if !(a.Some? && a.value.0 in keys) {
        outLines := outLines + [ls[i]];
      }
    }
    assert ls[|ls|..] == [] && RemoveLines([], keys) == [] && outLines + [] == outLines by { RemoveEnd(keys); }
    result := Rewrite(text, outLines);
  }
}
