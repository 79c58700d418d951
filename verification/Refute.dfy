/** The skeptics: each is asked until its reply is an object, and an edit survives only when a
    strict majority of them fails to refute it. A reply that is no JSON is None. */
module Refute {
  import opened Lists
  import opened Json
  import opened JsonValues
  import opened Changelists
  import Findings
  import Decimal

  /** What skeptic `i` replies to its `j`-th prompt, read as JSON. */
  type Replies = (nat, nat) -> Option<Json>

  /** The first reply that is an object, among the first prompt and `retries` more. */
  function SkepticReply(ask: nat -> Option<Json>, attempt: nat, retries: int): Option<Json>
    decreases retries - attempt
  {
    if attempt > retries then None
    else if ask(attempt).Some? && ask(attempt).value.Obj? then ask(attempt)
    else SkepticReply(ask, attempt + 1, retries)
  }

  /** `_one_skeptic_verdict` */
  method OneSkepticVerdict(ask: nat -> Option<Json>, retries: int) returns (r: Option<Json>)
    ensures r == SkepticReply(ask, 0, retries)
    ensures r.Some? ==> r.value.Obj? && exists j :: 0 <= j <= retries && ask(j) == r && forall l :: 0 <= l < j ==> !(ask(l).Some? && ask(l).value.Obj?)
    ensures r.None? <==> forall j: nat :: j <= retries ==> !(ask(j).Some? && ask(j).value.Obj?)
  {
    var attempt := 0;
    while attempt <= retries
      invariant attempt <= if retries < 0 then 0 else retries + 1
      invariant SkepticReply(ask, attempt, retries) == SkepticReply(ask, 0, retries)
      invariant forall l: nat :: l < attempt ==> !(ask(l).Some? && ask(l).value.Obj?)
    {
      var reply := ask(attempt);
      if reply.Some? && reply.value.Obj? {
        return reply;
      }
      attempt := attempt + 1;
    }
    r := None;
  }

  /** An object whose `refuted` is there and falsy. */
  predicate Survives(v: Option<Json>) {
    v.Some? && v.value.Obj? && Field(v.value.fields, "refuted").Some? && !Findings.Truthy(Field(v.value.fields, "refuted").value)
  }

  /** How many of the first `n` skeptics fail to refute. */
  function Survivals(votes: nat -> Option<Json>, n: nat): nat {
    if n == 0 then 0 else Survivals(votes, n - 1) + if Survives(votes(n - 1)) then 1 else 0
  }

  function Unreadable(votes: nat -> Option<Json>, n: nat): nat {
    if n == 0 then 0 else Unreadable(votes, n - 1) + if votes(n - 1).None? then 1 else 0
  }

  function Reason(repr: Json -> string, retries: int, v: Option<Json>): string {
    if v.None? || !v.value.Obj? then "unparseable skeptic response (after " + PrintInt(retries) + " re-prompts)"
    else Findings.PyStr(repr, Get(v.value.fields, "reason", Json.Text("")))
  }

  /** The reasons of the skeptics that did not fail to refute, in order. */
  function Reasons(repr: Json -> string, retries: int, votes: nat -> Option<Json>, n: nat): seq<string> {
    if n == 0 then []
    else Reasons(repr, retries, votes, n - 1) + if Survives(votes(n - 1)) then [] else [Reason(repr, retries, votes(n - 1))]
  }

  /** `" | ".join` */
  function Joined(reasons: seq<string>): string {
    if reasons == [] then "" else if |reasons| == 1 then reasons[0] else reasons[0] + " | " + Joined(reasons[1..])
  }

  function Asked(replies: Replies, i: nat): nat -> Option<Json> {
    (j: nat) => replies(i, j)
  }

  function Votes(replies: Replies, retries: int): nat -> Option<Json> {
    (i: nat) => SkepticReply(Asked(replies, i), 0, retries)
  }

  function Count(skeptics: int): nat {
    if skeptics < 0 then 0 else skeptics
  }

  function Judged(repr: Json -> string, skeptics: int, retries: int, votes: nat -> Option<Json>): Verdict {
    var survived := Survivals(votes, Count(skeptics));
    Verdict(Bool(2 * survived <= skeptics), Int(survived),
            Json.Text(Joined(Reasons(repr, retries, votes, Count(skeptics)))), Int(Unreadable(votes, Count(skeptics))))
  }

  /** `refute` */
  method RefuteEdit(repr: Json -> string, replies: Replies, skeptics: int, retries: int) returns (v: Verdict)
    ensures v == Judged(repr, skeptics, retries, Votes(replies, retries))
  {
    hide SkepticReply, Findings.Truthy;
    ghost var votes := Votes(replies, retries);
    var refutals: seq<string> := [];
    var survived, failures := 0, 0;
    for i := 0 to Count(skeptics)
      invariant survived == Survivals(votes, i) && failures == Unreadable(votes, i)
      invariant refutals == Reasons(repr, retries, votes, i)
    {
      var verdict := OneSkepticVerdict(Asked(replies, i), retries);
      assert verdict == votes(i);
      if verdict.None? {
        failures := failures + 1;
        refutals := refutals + ["unparseable skeptic response (after " + PrintInt(retries) + " re-prompts)"];
      } else if Findings.Truthy(Get(verdict.value.fields, "refuted", Bool(true))) {
        TrueIsTruthy();
        refutals := refutals + [Findings.PyStr(repr, Get(verdict.value.fields, "reason", Json.Text("")))];
      } else {
        TrueIsTruthy();
        survived := survived + 1;
      }
    }
    MajorityIs(survived, skeptics);
    v := Verdict(Bool(survived < skeptics / 2 + 1), Int(survived), Json.Text(Joined(refutals)), Int(failures));
  }

  lemma TrueIsTruthy()
    ensures Findings.Truthy(Bool(true))
  {
  }

  lemma MajorityIs(survived: nat, skeptics: int)
    ensures survived < skeptics / 2 + 1 <==> 2 * survived <= skeptics
  {
  }

  // ---------------------------------------------------------------- what the votes mean

  lemma {:induction false} VotesAddUp(repr: Json -> string, retries: int, votes: nat -> Option<Json>, n: nat)
    ensures Survivals(votes, n) + |Reasons(repr, retries, votes, n)| == n
    ensures Unreadable(votes, n) <= |Reasons(repr, retries, votes, n)|
  {
    hide Survives, Reason;
    if n > 0 {
      VotesAddUp(repr, retries, votes, n - 1);
      assert votes(n - 1).None? ==> !Survives(votes(n - 1)) by { NoneRefutes(votes(n - 1)); }
    }
  }

  lemma NoneRefutes(v: Option<Json>)
    ensures v.None? ==> !Survives(v)
  {
  }

  lemma {:induction false} SilenceCannotAdd(votes: nat -> Option<Json>, silenced: nat -> Option<Json>, n: nat)
    requires forall i: nat :: i < n ==> silenced(i) == votes(i) || silenced(i).None?
    ensures Survivals(silenced, n) <= Survivals(votes, n)
  {
    hide Survives;
    if n > 0 {
      SilenceCannotAdd(votes, silenced, n - 1);
      NoneRefutes(silenced(n - 1));
    }
  }

  /** An edit is refuted exactly when at most half of the skeptics fail to refute it; and turning
      any replies unreadable never saves an edit that was refuted. */
  lemma UnreadableNeverHelps(repr: Json -> string, skeptics: int, retries: int, votes: nat -> Option<Json>, silenced: nat -> Option<Json>)
    requires forall i: nat :: i < Count(skeptics) ==> silenced(i) == votes(i) || silenced(i).None?
    ensures Judged(repr, skeptics, retries, votes).refuted == Bool(2 * Survivals(votes, Count(skeptics)) <= skeptics)
    ensures Judged(repr, skeptics, retries, votes).refuted == Bool(true) ==>
              Judged(repr, skeptics, retries, silenced).refuted == Bool(true)
  {
    hide Survivals, Reasons, Unreadable;
    SilenceCannotAdd(votes, silenced, Count(skeptics));
  }

  // ---------------------------------------------------------------- the votes, reply by reply

  predicate IsObject(reply: Option<Json>) {
    reply.Some? && reply.value.Obj?
  }

  lemma {:induction false} SkepticReplyIs(ask: nat -> Option<Json>, attempt: nat, retries: int)
    ensures SkepticReply(ask, attempt, retries).None? <==> forall j: nat :: attempt <= j <= retries ==> !IsObject(ask(j))
    ensures SkepticReply(ask, attempt, retries).Some? ==>
              exists j: nat :: attempt <= j <= retries && IsObject(ask(j)) && SkepticReply(ask, attempt, retries) == ask(j) &&
                forall l: nat :: attempt <= l < j ==> !IsObject(ask(l))
    decreases retries - attempt
  {
    if attempt <= retries && !IsObject(ask(attempt)) {
      SkepticReplyIs(ask, attempt + 1, retries);
    }
  }

  /** Each skeptic's vote is its own first reply that is an object; there is none when it stays
      unreadable over all re-prompts. */
  lemma VotesAreReplies(replies: Replies, retries: int, i: nat)
    ensures var v := Votes(replies, retries)(i);
            && (v.None? <==> forall j: nat :: j <= retries ==> !IsObject(replies(i, j)))
            && (v.Some? ==> exists j: nat :: j <= retries && IsObject(v) && v == replies(i, j) &&
                              forall l: nat :: l < j ==> !IsObject(replies(i, l)))
  {
    var ask := Asked(replies, i);
    SkepticReplyIs(ask, 0, retries);
    hide SkepticReply, IsObject;
    assert forall j: nat {:trigger replies(i, j)} :: replies(i, j) == ask(j);
    assert forall j: nat {:trigger ask(j)} :: replies(i, j) == ask(j);
  }

  /** The reply is an object that says `"refuted": false`, or the like: Python takes false, null, a
      zero and everything empty for false. */
  ghost predicate SaysNotRefuted(v: Option<Json>) {
    && v.Some? && v.value.Obj?
    && (exists n: nat ::
          && n < |v.value.fields| && v.value.fields[n].0 == "refuted" && Findings.CountsAsFalse(v.value.fields[n].1)
          && forall m :: n < m < |v.value.fields| ==> v.value.fields[m].0 != "refuted")
  }

  ghost function Clearing(votes: nat -> Option<Json>, n: nat): set<nat> {
    set i: nat | i < n && SaysNotRefuted(votes(i))
  }

  lemma SurvivesIff(v: Option<Json>)
    ensures Survives(v) <==> SaysNotRefuted(v)
  {
    if v.Some? && v.value.Obj? {
      FieldIsLast(v.value.fields, "refuted");
      hide Field;
      forall w: Json ensures Findings.CountsAsFalse(w) <==> !Findings.Truthy(w) { Findings.FalseIffNotTruthy(w); }
      hide Findings.CountsAsFalse, Findings.Truthy;
    }
  }

  lemma {:induction false} SurvivalsAre(votes: nat -> Option<Json>, n: nat)
    ensures Survivals(votes, n) == |Clearing(votes, n)|
  {
    hide Survives, SaysNotRefuted;
    if n > 0 {
      SurvivalsAre(votes, n - 1);
      SurvivesIff(votes(n - 1));
      assert Clearing(votes, n) == Clearing(votes, n - 1) + if SaysNotRefuted(votes(n - 1)) then {n - 1} else {};
    } else {
      assert Clearing(votes, 0) == {};
    }
  }

  lemma {:induction false} UnreadableAre(votes: nat -> Option<Json>, n: nat)
    ensures Unreadable(votes, n) == |set i: nat | i < n && votes(i).None?|
  {
    if n > 0 {
      UnreadableAre(votes, n - 1);
      assert (set i: nat | i < n && votes(i).None?) ==
             (set i: nat | i < n - 1 && votes(i).None?) + if votes(n - 1).None? then {n - 1} else {};
    } else {
      assert (set i: nat | i < 0 && votes(i).None?) == {};
    }
  }

  /** What skeptic `i` says against the edit. */
  ghost predicate IsReason(repr: Json -> string, retries: int, v: Option<Json>, reason: string) {
    match v
    case None => reason == "unparseable skeptic response (after " + PrintInt(retries) + " re-prompts)"
    case Some(reply) =>
      reply.Obj? ==>
        var said := Field(reply.fields, "reason");
        reason == if said.None? then "" else if said.value.Text? then said.value.s else repr(said.value)
  }

  lemma ReasonIs(repr: Json -> string, retries: int, v: Option<Json>)
    ensures IsReason(repr, retries, v, Reason(repr, retries, v))
  {
    hide Field;
  }

  lemma {:induction false} ReasonsAre(repr: Json -> string, retries: int, votes: nat -> Option<Json>, n: nat)
    ensures |Reasons(repr, retries, votes, n)| == n - |Clearing(votes, n)|
    ensures forall i: nat :: i < n && i !in Clearing(votes, n) ==>
              && 0 <= i - |Clearing(votes, i)| < n - |Clearing(votes, n)|
              && IsReason(repr, retries, votes(i), Reasons(repr, retries, votes, n)[i - |Clearing(votes, i)|])
  {
    hide Survives, SaysNotRefuted, Reason, IsReason;
    if n > 0 {
      var v := votes(n - 1);
      ReasonsAre(repr, retries, votes, n - 1);
      SurvivesIff(v);
      ReasonIs(repr, retries, v);
      assert Clearing(votes, n) == Clearing(votes, n - 1) + if SaysNotRefuted(v) then {n - 1} else {};
    } else {
      assert Clearing(votes, 0) == {};
    }
  }

  lemma {:induction false} JoinedGrows(reasons: seq<string>, last: string)
    ensures Joined([]) == "" && Joined([last]) == last
    ensures reasons != [] ==> Joined(reasons + [last]) == Joined(reasons) + " | " + last
  {
    if |reasons| > 1 {
      JoinedGrows(reasons[1..], last);
      var grown := reasons + [last];
      assert grown[0] == reasons[0] && grown[1..] == reasons[1..] + [last];
      assert Joined(grown) == reasons[0] + " | " + (Joined(reasons[1..]) + " | " + last);
    } else if |reasons| == 1 {
      var grown := reasons + [last];
      assert grown[1..] == [last];
    }
  }

  /** The verdict on an edit, reply by reply: its votes are the skeptics who said that it is not
      refuted; each other skeptic gives one reason, in order; it is refuted when no strict
      majority cleared it. */
  lemma VerdictCounts(repr: Json -> string, skeptics: int, retries: int, votes: nat -> Option<Json>)
    ensures var v := Judged(repr, skeptics, retries, votes);
            var n: nat := if skeptics < 0 then 0 else skeptics;
            var clear := Clearing(votes, n);
            && v.votes == Int(|clear|)
            && v.refuted == Bool(2 * |clear| <= skeptics)
            && v.failures == Int(|set i: nat | i < n && votes(i).None?|)
            && exists reasons: seq<string> ::
                 && v.refutation == Json.Text(Joined(reasons)) && |reasons| == n - |clear|
                 && forall i: nat :: i < n && i !in clear ==>
                      && 0 <= i - |Clearing(votes, i)| < |reasons|
                      && IsReason(repr, retries, votes(i), reasons[i - |Clearing(votes, i)|])
  {
    SurvivalsAre(votes, Count(skeptics));
    UnreadableAre(votes, Count(skeptics));
    ReasonsAre(repr, retries, votes, Count(skeptics));
    hide Survivals, Unreadable, Reasons, Joined, IsReason, Clearing;
    var reasons := Reasons(repr, retries, votes, Count(skeptics));
    assert Judged(repr, skeptics, retries, votes).refutation == Json.Text(Joined(reasons));
  }

  /** `"refuted"` is true, false or left out. */
  ghost predicate PlainReply(v: Option<Json>) {
    v.Some? ==> v.value.Obj? && (Field(v.value.fields, "refuted").None? || Field(v.value.fields, "refuted").value.Bool?)
  }

  ghost predicate SaysFalse(v: Option<Json>) {
    v.Some? && v.value.Obj? && Field(v.value.fields, "refuted") == Some(Bool(false))
  }

  lemma PlainReplyClears(v: Option<Json>)
    requires PlainReply(v)
    ensures SaysNotRefuted(v) <==> SaysFalse(v)
  {
    if v.Some? {
      FieldIsLast(v.value.fields, "refuted");
      hide Field;
    }
  }

  /** For replies that keep to the format a skeptic clears the edit exactly by saying false. */
  lemma PlainVotesCount(repr: Json -> string, skeptics: nat, retries: int, votes: nat -> Option<Json>)
    requires forall i: nat :: i < skeptics ==> PlainReply(votes(i))
    ensures var clear := set i: nat | i < skeptics && SaysFalse(votes(i));
            var v := Judged(repr, skeptics, retries, votes);
            v.votes == Int(|clear|) && v.refuted == Bool(2 * |clear| <= skeptics)
  {
    VerdictCounts(repr, skeptics, retries, votes);
    hide SaysNotRefuted, SaysFalse, PlainReply, Judged, IsReason, Joined;
    forall i: nat | i < skeptics ensures SaysNotRefuted(votes(i)) <==> SaysFalse(votes(i)) {
      PlainReplyClears(votes(i));
    }
    assert Clearing(votes, skeptics) == set i: nat | i < skeptics && SaysFalse(votes(i));
  }
}
