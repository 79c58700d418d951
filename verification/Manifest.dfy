/** The integrity lock as a JSON document: entries, and the hash the lock keeps of itself. */
module Manifest {
  import opened Lists
  import opened Text
  import opened Json
  import opened JsonValues
  import Findings

  /** The hash is taken from outside; distinct texts are assumed to have distinct hashes. */
  type Hash = string -> string

  ghost predicate HashOk(h: Hash) {
    forall a, b :: h(a) == h(b) ==> a == b
  }

  type ClassWord = w: string | w != "locked" && w != "hybrid" witness ""
  type TierWord = w: string | w != "tracked" && w != "gitignored" witness ""

  /** A lock may hold any other word; only the framework's own rules are known to use these two. */
  datatype Class = Locked | Hybrid | OtherClass(word: ClassWord)
  datatype Tier = Tracked | Gitignored | OtherTier(word: TierWord)

  datatype Entry = Entry(path: string, cls: Class, tier: Tier, sha256: Option<string>, drift: bool)

  datatype Manifest = Manifest(version: int, framework: string, entries: seq<Entry>)

  const VERSION := 1

  function ClassName(c: Class): string {
    match c
    case Locked => "locked"
    case Hybrid => "hybrid"
    case OtherClass(word) => word
  }

  function TierName(t: Tier): string {
    match t
    case Tracked => "tracked"
    case Gitignored => "gitignored"
    case OtherTier(word) => word
  }

  function ClassOf(word: string): Class {
    if word == "locked" then Locked else if word == "hybrid" then Hybrid else OtherClass(word)
  }

  function TierOf(word: string): Tier {
    if word == "tracked" then Tracked else if word == "gitignored" then Gitignored else OtherTier(word)
  }

  lemma WordsReadBack(c: Class, t: Tier)
    ensures ClassOf(ClassName(c)) == c && TierOf(TierName(t)) == t
  {
    NamesApart();
  }

  function TextField(fields: seq<(string, Json)>, key: string): Option<string> {
    var v := Field(fields, key);
    if v.Some? && v.value.Text? then Some(v.value.s) else None
  }

  /** `Entry.to_dict`, in the order `sort_keys` gives: an absent hash and a false drift flag
      are left out. */
  function ToFields(e: Entry): seq<(string, Json)> {
    var f1 := [] + [("cls", Json.Text(ClassName(e.cls)))];
    var f2 := if e.drift then f1 + [("drift", Json.Bool(true))] else f1;
    var f3 := f2 + [("path", Json.Text(e.path))];
    var f4 := if e.sha256.Some? then f3 + [("sha256", Json.Text(e.sha256.value))] else f3;
    f4 + [("tier", Json.Text(TierName(e.tier)))]
  }

  predicate NoText(v: Option<Json>) {
    v.Some? && !v.value.Text? && !v.value.Null?
  }

  /** `Entry.from_dict`; None is the KeyError of a missing field, or a field of another kind. */
  function FromJson(v: Json): Option<Entry> {
    if !v.Obj? then None
    else
      var path, cls, tier := TextField(v.fields, "path"), TextField(v.fields, "cls"), TextField(v.fields, "tier");
      var drift := Field(v.fields, "drift");
      if path.None? || cls.None? || tier.None? || NoText(Field(v.fields, "sha256")) then None
      else Some(Entry(path.value, ClassOf(cls.value), TierOf(tier.value),
                      TextField(v.fields, "sha256"),
                      drift.Some? && Findings.Truthy(drift.value)))
  }

  lemma EntryFields(e: Entry, key: string)
    ensures Field(ToFields(e), key) ==
            (if key == "tier" then Some(Json.Text(TierName(e.tier)))
             else if key == "sha256" && e.sha256.Some? then Some(Json.Text(e.sha256.value))
             else if key == "path" then Some(Json.Text(e.path))
             else if key == "drift" && e.drift then Some(Json.Bool(true))
             else if key == "cls" then Some(Json.Text(ClassName(e.cls))) else None)
  {
    var f1 := [] + [("cls", Json.Text(ClassName(e.cls)))];
    var f2 := if e.drift then f1 + [("drift", Json.Bool(true))] else f1;
    var f3 := f2 + [("path", Json.Text(e.path))];
    var f4 := if e.sha256.Some? then f3 + [("sha256", Json.Text(e.sha256.value))] else f3;
    FieldLast([], ("cls", Json.Text(ClassName(e.cls))), key);
    FieldLast(f1, ("drift", Json.Bool(true)), key);
    FieldLast(f2, ("path", Json.Text(e.path)), key);
    if e.sha256.Some? {
      FieldLast(f3, ("sha256", Json.Text(e.sha256.value)), key);
    }
    FieldLast(f4, ("tier", Json.Text(TierName(e.tier))), key);
    assert Field([], key) == None;
    hide Field;
  }

  lemma EntryRoundTrip(e: Entry)
    ensures FromJson(Obj(ToFields(e))) == Some(e)
  {
    EntryFields(e, "path");
    EntryFields(e, "cls");
    EntryFields(e, "tier");
    EntryFields(e, "sha256");
    EntryFields(e, "drift");
    NamesApart();
    WordsReadBack(e.cls, e.tier);
    TrueIsTruthy();
    hide Field, ToFields, ClassOf, TierOf, ClassName, TierName, Findings.Truthy;
  }

  lemma TrueIsTruthy()
    ensures Findings.Truthy(Json.Bool(true))
  {
  }

  lemma NamesApart()
    ensures "path" != "cls" && "path" != "tier" && "path" != "sha256" && "path" != "drift"
    ensures "cls" != "tier" && "cls" != "sha256" && "cls" != "drift" && "tier" != "sha256" && "tier" != "drift"
    ensures "sha256" != "drift" && "locked" != "hybrid" && "tracked" != "gitignored"
  {
    assert |"path"| == 4 && |"cls"| == 3 && |"tier"| == 4 && |"sha256"| == 6 && |"drift"| == 5;
    assert "path"[0] != "tier"[0] && "locked"[0] != "hybrid"[0];
    assert |"tracked"| != |"gitignored"|;
  }

  // ---------------------------------------------------------------- sorting by path

  /** Before every entry whose path is not smaller: `sorted` is stable. */
  function Insert(e: Entry, es: seq<Entry>): seq<Entry> {
    if es == [] || AtMost(e.path, es[0].path) then [e] + es else [es[0]] + Insert(e, es[1..])
  }

  function Sorted(es: seq<Entry>): seq<Entry> {
    if es == [] then [] else Insert(es[0], Sorted(es[1..]))
  }

  ghost predicate InOrder(es: seq<Entry>) {
    forall i :: 0 <= i < |es| - 1 ==> AtMost(es[i].path, es[i + 1].path)
  }

  lemma {:induction false} InsertKeepsOrder(e: Entry, es: seq<Entry>)
    requires InOrder(es)
    ensures InOrder(Insert(e, es)) && |Insert(e, es)| == |es| + 1
    ensures Insert(e, es)[0] == e || (es != [] && Insert(e, es)[0] == es[0])
    ensures multiset(Insert(e, es)) == multiset(es) + multiset{e}
  {
    hide AtMost;
    if es != [] {
      AtMostTotal(e.path, es[0].path);
      assert InOrder(es[1..]);
      InsertKeepsOrder(e, es[1..]);
      assert es == [es[0]] + es[1..];
      if !AtMost(e.path, es[0].path) {
        var r := Insert(e, es[1..]);
        assert Insert(e, es) == [es[0]] + r;
        assert r[0] == e || r[0] == es[1];
      }
    }
  }

  lemma {:induction false} SortedInOrder(es: seq<Entry>)
    ensures InOrder(Sorted(es)) && multiset(Sorted(es)) == multiset(es)
  {
    if es != [] {
      SortedInOrder(es[1..]);
      InsertKeepsOrder(es[0], Sorted(es[1..]));
      assert es == [es[0]] + es[1..];
    }
  }

  lemma {:induction false} SortedOfOrdered(es: seq<Entry>)
    requires InOrder(es)
    ensures Sorted(es) == es
  {
    if es != [] {
      assert InOrder(es[1..]);
      SortedOfOrdered(es[1..]);
      assert es == [es[0]] + es[1..];
    }
  }

  lemma SortedTwice(es: seq<Entry>)
    ensures Sorted(Sorted(es)) == Sorted(es)
  {
    SortedInOrder(es);
    SortedOfOrdered(Sorted(es));
  }

  // ---------------------------------------------------------------- the document

  function ToJsons(es: seq<Entry>): seq<Json> {
    if es == [] then [] else [Obj(ToFields(es[0]))] + ToJsons(es[1..])
  }

  function Entries(vs: seq<Json>): Option<seq<Entry>> {
    if vs == [] then Some([])
    else
      var e, rest := FromJson(vs[0]), Entries(vs[1..]);
      if e.None? || rest.None? then None else Some([e.value] + rest.value)
  }

  lemma {:induction false} EntriesRoundTrip(es: seq<Entry>)
    ensures Entries(ToJsons(es)) == Some(es)
  {
    hide ToFields, FromJson;
    if es != [] {
      EntryRoundTrip(es[0]);
      EntriesRoundTrip(es[1..]);
      assert ToJsons(es)[1..] == ToJsons(es[1..]) && [es[0]] + es[1..] == es;
    }
  }

  /** `json.dumps(..., separators=(",", ":"))` */
  function Compact(): Style {
    Style(_ => "", _ => "", _ => "", "")
  }

  function Spaces(n: nat): string {
    seq(n, _ => ' ')
  }

  /** `json.dumps(..., indent=2)` */
  function Indented(): Style {
    Style((l: nat) => "\n" + Spaces(2 * l + 2), (l: nat) => "\n" + Spaces(2 * l + 2), (l: nat) => "\n" + Spaces(2 * l), " ")
  }

  lemma StylesOk()
    ensures StyleOk(Compact()) && StyleOk(Indented())
  {
  }

  /** `_body`, in the order `sort_keys` gives. */
  function Body(m: Manifest): Json {
    Obj([] + [("entries", Arr(ToJsons(Sorted(m.entries))))]
        + [("framework_version", Json.Text(m.framework))]
        + [("version", Int(m.version))])
  }

  function SelfHash(k: Hash, m: Manifest): string {
    k(Print(Body(m), Compact(), 0))
  }

  function Document(m: Manifest, self: string): Json {
    Obj([] + [("entries", Arr(ToJsons(Sorted(m.entries))))]
        + [("framework_version", Json.Text(m.framework))]
        + [("self_sha256", Json.Text(self))]
        + [("version", Int(m.version))])
  }

  function Dumps(k: Hash, m: Manifest): string {
    Print(Document(m, SelfHash(k, m)), Indented(), 0) + "\n"
  }

  /** `Manifest.loads`; None when the text is no such document. */
  function LoadManifest(text: string): Option<Manifest> {
    var v := Loads(text);
    if v.Bad? || !v.value.Obj? then None
    else
      var version, framework, entries :=
        Field(v.value.fields, "version"), Field(v.value.fields, "framework_version"), Field(v.value.fields, "entries");
      if version.Some? && version.value.Int? && framework.Some? && framework.value.Text?
         && entries.Some? && entries.value.Arr? && Entries(entries.value.items).Some?
      then Some(Manifest(version.value.n, framework.value.s, Entries(entries.value.items).value))
      else None
  }

  /** `json.loads(text).get("self_sha256")` */
  function StoredHash(text: string): Option<string> {
    var v := Loads(text);
    if v.Got? && v.value.Obj? then TextField(v.value.fields, "self_sha256") else None
  }

  /** A lock that parses and whose recorded hash is that of its own entries. */
  predicate SelfConsistent(k: Hash, text: string) {
    LoadManifest(text).Some? && StoredHash(text) == Some(SelfHash(k, LoadManifest(text).value))
  }

  // ---------------------------------------------------------------- tampering

  lemma BodyFields(m: Manifest, key: string)
    ensures Field(Body(m).fields, key) ==
            (if key == "version" then Some(Int(m.version))
             else if key == "framework_version" then Some(Json.Text(m.framework))
             else if key == "entries" then Some(Arr(ToJsons(Sorted(m.entries)))) else None)
  {
    var f1 := [] + [("entries", Arr(ToJsons(Sorted(m.entries))))];
    var f2 := f1 + [("framework_version", Json.Text(m.framework))];
    FieldLast([], ("entries", Arr(ToJsons(Sorted(m.entries)))), key);
    FieldLast(f1, ("framework_version", Json.Text(m.framework)), key);
    FieldLast(f2, ("version", Int(m.version)), key);
    assert Field([], key) == None;
    hide Field;
  }

  /** The two manifests say the same, whatever the order of their entries. */
  ghost predicate SameContent(m: Manifest, m': Manifest) {
    m.version == m'.version && m.framework == m'.framework && Sorted(m.entries) == Sorted(m'.entries)
  }

  /** The self hash covers all of a manifest - version, framework version and every field of every
      entry - and nothing else: two manifests share it exactly when they say the same. */
  lemma SelfHashCoversAll(k: Hash, m: Manifest, m': Manifest)
    requires HashOk(k)
    ensures SelfHash(k, m) == SelfHash(k, m') <==> SameContent(m, m')
  {
    StylesOk();
    LoadsOfPrint(Body(m), Compact());
    LoadsOfPrint(Body(m'), Compact());
    EntriesRoundTrip(Sorted(m.entries));
    EntriesRoundTrip(Sorted(m'.entries));
    hide Print, Loads, ToJsons, Entries, Sorted, StyleOk;
    if SelfHash(k, m) == SelfHash(k, m') {
      assert Body(m) == Body(m');
      BodyFields(m, "version");
      BodyFields(m', "version");
      BodyFields(m, "framework_version");
      BodyFields(m', "framework_version");
      BodyFields(m, "entries");
      BodyFields(m', "entries");
      KeysApart();
      hide Field, Body;
    }
  }

  /** A lock that was edited without its recorded hash is still self-consistent exactly when the
      edit changed nothing of what it says. */
  lemma TamperingShows(k: Hash, was: string, now: string)
    requires HashOk(k) && SelfConsistent(k, was) && LoadManifest(now).Some? && StoredHash(now) == StoredHash(was)
    ensures SelfConsistent(k, now) <==> SameContent(LoadManifest(was).value, LoadManifest(now).value)
  {
    hide LoadManifest, StoredHash, SelfHash, SameContent;
    SelfHashCoversAll(k, LoadManifest(was).value, LoadManifest(now).value);
  }

  lemma DocumentFields(m: Manifest, self: string, key: string)
    ensures Field(Document(m, self).fields, key) ==
            (if key == "version" then Some(Int(m.version))
             else if key == "self_sha256" then Some(Json.Text(self))
             else if key == "framework_version" then Some(Json.Text(m.framework))
             else if key == "entries" then Some(Arr(ToJsons(Sorted(m.entries)))) else None)
  {
    var f1 := [] + [("entries", Arr(ToJsons(Sorted(m.entries))))];
    var f2 := f1 + [("framework_version", Json.Text(m.framework))];
    var f3 := f2 + [("self_sha256", Json.Text(self))];
    FieldLast([], ("entries", Arr(ToJsons(Sorted(m.entries)))), key);
    FieldLast(f1, ("framework_version", Json.Text(m.framework)), key);
    FieldLast(f2, ("self_sha256", Json.Text(self)), key);
    FieldLast(f3, ("version", Int(m.version)), key);
    assert Field([], key) == None;
    hide Field;
  }

  lemma LoadsOfDumps(k: Hash, m: Manifest)
    ensures Loads(Dumps(k, m)) == Got(Document(m, SelfHash(k, m)), "")
  {
    StylesOk();
    hide ToJsons, Sorted, ToFields;
    var doc := Document(m, SelfHash(k, m));
    LoadsOfPrinted(doc, Indented());
  }

  lemma LoadsOfPrinted(v: Json, st: Style)
    requires StyleOk(st) && v.Obj?
    ensures Loads(Print(v, st, 0) + "\n") == Got(v, "")
  {
    hide Print, DecodeValue, StyleOk;
    PrintOpens(v, st, 0);
    OpensOver(Print(v, st, 0), "\n");
    ValueRoundTrip(v, st, 0, "\n");
    assert SkipBlank("\n") == "";
  }

  /** What `dumps` writes is self-consistent and reads back as the same manifest with its
      entries sorted: sorting on the way out does not disturb the hash on the way in. */
  lemma DumpsIsConsistent(k: Hash, m: Manifest)
    ensures LoadManifest(Dumps(k, m)) == Some(m.(entries := Sorted(m.entries)))
    ensures SelfConsistent(k, Dumps(k, m))
  {
    SortedTwice(m.entries);
    EntriesRoundTrip(Sorted(m.entries));
    LoadsOfDumps(k, m);
    var self := SelfHash(k, m);
    DocumentFields(m, self, "version");
    DocumentFields(m, self, "framework_version");
    DocumentFields(m, self, "entries");
    DocumentFields(m, self, "self_sha256");
    KeysApart();
    hide Loads, Dumps, Sorted, ToJsons, Entries, Field, Print;
  }

  lemma KeysApart()
    ensures "self_sha256" != "version" && "self_sha256" != "framework_version" && "self_sha256" != "entries"
    ensures "version" != "framework_version" && "version" != "entries" && "framework_version" != "entries"
  {
    assert |"self_sha256"| == 11 && |"version"| == 7 && |"framework_version"| == 17;
    assert "version"[0] != "entries"[0];
  }
}
