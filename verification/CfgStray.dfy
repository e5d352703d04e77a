/** Walks over tokens that need not be those of a document: which token a lookup of cfg/cfg.cpp ends at. */
module CfgStray {
  import opened Wrappers
  import opened JsonText
  import opened CfgWalk
  import opened CfgLookup
  import opened CfgFind

  const Begin := State([], false, [])

  // What is found is a token walked over.
  lemma {:induction false} HitNumbers(s: State, k: nat, toks: seq<Tok>, scope: Scope, json: string,
      cb: (nat, nat) -> bool)
    ensures var h := FirstHit(Run(s, k, toks, scope, json).trace, cb);
            if FirstHit(s.trace, cb).Some? then h == FirstHit(s.trace, cb)
            else h.Some? ==> k <= h.value < k + |toks|
    decreases |toks|
  {
    if toks != [] {
      var text := TextOf(json, toks[0]);
      TakenHits(s, k, toks[0], scope, text, cb);
      SettleHits(Taken(s, k, toks[0], scope, text), cb);
      hide Taken, Settle, TextOf;
      HitNumbers(Step(s, k, toks[0], scope, text), k + 1, toks[1..], scope, json, cb);
    }
  }

  // The walk up to token k, that token, and the rest.
  lemma RunSplit(toks: seq<Tok>, k: nat, scope: Scope, json: string)
    requires k < |toks|
    ensures var s := Run(Begin, 0, toks[..k], scope, json);
            Run(Begin, 0, toks, scope, json)
            == Run(Settle(Taken(s, k, toks[k], scope, TextOf(json, toks[k]))), k + 1, toks[k + 1..], scope, json)
  {
    hide Run, Taken, Settle, TextOf;
    SplitAt(toks, k);
    RunAppend(Begin, 0, toks[..k], toks[k..], scope, json);
    RunStep(Run(Begin, 0, toks[..k], scope, json), k, toks[k..], scope, json);
  }

  lemma SplitAt(toks: seq<Tok>, k: nat)
    requires k < |toks|
    ensures toks == toks[..k] + toks[k..] && |toks[..k]| == k && toks[k..] != []
    ensures toks[k..][0] == toks[k] && toks[k..][1..] == toks[k + 1..]
  {
  }

  lemma NoHitYet(cb: (nat, nat) -> bool)
    ensures FirstHit(Begin.trace, cb) == None
  {
  }

  lemma HitAt(toks: seq<Tok>, k: nat, scope: Scope, json: string, cb: (nat, nat) -> bool)
    requires k < |toks|
    ensures var s, h := Run(Begin, 0, toks[..k], scope, json), FirstHit(Run(Begin, 0, toks, scope, json).trace, cb);
            && (!(Shown(scope, s.hit, |s.frames|) && cb(k, |s.frames|)) ==> h != Some(k))
            && (Shown(scope, s.hit, |s.frames|) && cb(k, |s.frames|) && FirstHit(s.trace, cb) == None ==> h == Some(k))
  {
    hide *;
    var s := Run(Begin, 0, toks[..k], scope, json);
    var t := Taken(s, k, toks[k], scope, TextOf(json, toks[k]));
    NoHitYet(cb);
    HitNumbers(Begin, 0, toks[..k], scope, json, cb);
    RunSplit(toks, k, scope, json);
    TakenHits(s, k, toks[k], scope, TextOf(json, toks[k]), cb);
    SettleHits(t, cb);
    HitNumbers(Settle(t), k + 1, toks[k + 1..], scope, json, cb);
  }

  // ----- Up to a key of the top level -------------------------------------------------------------

  // Members whose keys are not the one searched for, more values to come.
  lemma {:induction false} RunPrior(s: State, k: nat, ms: seq<Member>, off: nat, id1: string, json: string)
    requires |s.frames| == 1 && s.frames[0].rem > |ms| && !s.hit && KeysAt(ms, off, json)
    requires forall i | 0 <= i < |ms| :: ms[i].key != id1
    ensures var r := Run(s, k, MemberToks(ms, off), Under(id1), json);
            r.frames == [s.frames[0].(rem := s.frames[0].rem - |ms|)] && !r.hit
            && r.trace == s.trace + TopEvents(ms, k, false, id1)
    decreases ms
  {
    hide Toks, MemberToks, Run, KeysAt, Events, TopEvents, PrintMember, HeadLen, TextOf, KeyTok, Reaches;
    if ms == [] {
      NoMembersLeft(s, k, off, id1, json);
    } else {
      assert forall i | 0 <= i < |ms[1..]| :: ms[1..][i] == ms[i + 1];
      KeysCons(ms, off, json);
      var v, p, q := ms[0].val, off + HeadLen(ms[0]), off + |PrintMember(ms[0])| + 1;
      var t := State(Counted(s.frames), false, s.trace + Events(v, k + 1, 1, Quiet));
      PriorKey(s, k, ms, off, id1, json);
      PriorValue(s, k + 1, v, p, id1, json);
      TokCount(v, p);
      RunPrior(t, k + 1 + Count(v), ms[1..], q, id1, json);
      PriorJoin(s, t, k, ms, off, id1, json);
    }
  }

  lemma NoMembersLeft(s: State, k: nat, off: nat, id1: string, json: string)
    requires |s.frames| == 1
    ensures Run(s, k, MemberToks([], off), Under(id1), json) == s && TopEvents([], k, false, id1) == []
            && s.trace + [] == s.trace
    ensures s.frames == [s.frames[0].(rem := s.frames[0].rem - 0)]
  {
  }

  lemma PriorKey(s: State, k: nat, ms: seq<Member>, off: nat, id1: string, json: string)
    requires ms != [] && |s.frames| == 1 && s.frames[0].rem > 0 && !s.hit && TextOf(json, KeyTok(ms[0], off)) != id1
    ensures Run(s, k, MemberToks(ms, off), Under(id1), json) == Run(s, k + 1, RestToks(ms, off), Under(id1), json)
  {
    hide Run, Step, TextOf, RestToks, MemberToks;
    MembersCons(ms, k, off, 1, Quiet);
    RunCons(s, k, KeyTok(ms[0], off), RestToks(ms, off), Under(id1), json);
    StepOfTopKey(s, k, KeyTok(ms[0], off), id1, TextOf(json, KeyTok(ms[0], off)));
  }

  lemma PriorValue(s: State, k: nat, v: Value, off: nat, id1: string, json: string)
    requires |s.frames| == 1 && s.frames[0].rem > 1 && !s.hit
    ensures Run(s, k, Toks(v, off), Under(id1), json)
            == State(Counted(s.frames), false, s.trace + Events(v, k, 1, Quiet))
  {
    RunTopValue(s, k, v, off, Under(id1), json);
    hide Run, Toks, Events;
  }

  lemma PriorJoin(s: State, t: State, k: nat, ms: seq<Member>, off: nat, id1: string, json: string)
    requires ms != [] && ms[0].key != id1
    requires Run(s, k, MemberToks(ms, off), Under(id1), json) == Run(s, k + 1, RestToks(ms, off), Under(id1), json)
    requires Run(s, k + 1, Toks(ms[0].val, off + HeadLen(ms[0])), Under(id1), json) == t
    requires |Toks(ms[0].val, off + HeadLen(ms[0]))| == Count(ms[0].val)
    requires t.trace == s.trace + Events(ms[0].val, k + 1, 1, Quiet)
    ensures Run(s, k, MemberToks(ms, off), Under(id1), json)
         == Run(t, k + 1 + Count(ms[0].val), MemberToks(ms[1..], off + |PrintMember(ms[0])| + 1), Under(id1), json)
    ensures t.trace + TopEvents(ms[1..], k + 1 + Count(ms[0].val), false, id1) == s.trace + TopEvents(ms, k, false, id1)
  {
    hide *;
    RestToksIs(ms, off);
    RunAppend(s, k + 1, Toks(ms[0].val, off + HeadLen(ms[0])), MemberToks(ms[1..], off + |PrintMember(ms[0])| + 1),
      Under(id1), json);
    TopEventsIs(ms, k, id1);
    AssocEvents(s.trace, Events(ms[0].val, k + 1, 1, Quiet), TopEvents(ms[1..], k + 1 + Count(ms[0].val), false, id1));
  }

  lemma RestToksIs(ms: seq<Member>, off: nat)
    requires ms != []
    ensures RestToks(ms, off)
            == Toks(ms[0].val, off + HeadLen(ms[0])) + MemberToks(ms[1..], off + |PrintMember(ms[0])| + 1)
  {
    hide Toks, MemberToks, HeadLen, PrintMember;
  }

  lemma TopEventsIs(ms: seq<Member>, k: nat, id1: string)
    requires ms != [] && ms[0].key != id1
    ensures TopEvents(ms, k, false, id1)
            == Events(ms[0].val, k + 1, 1, Quiet) + TopEvents(ms[1..], k + 1 + Count(ms[0].val), false, id1)
  {
    hide Events, Count;
  }

  lemma {:induction false} QuietTop(ms: seq<Member>, k: nat, id1: string, json: string, toks: seq<Tok>, id: string,
      want: nat)
    requires forall i | 0 <= i < |ms| :: ms[i].key != id1
    ensures FirstHit(TopEvents(ms, k, false, id1), Callback(json, toks, id, want)) == None
    decreases ms
  {
    if ms != [] {
      assert forall i | 0 <= i < |ms[1..]| :: ms[1..][i] == ms[i + 1];
      var a, b := Events(ms[0].val, k + 1, 1, Quiet), TopEvents(ms[1..], k + 1 + Count(ms[0].val), false, id1);
      NoHitBelow(ms[0].val, k + 1, 1, Quiet, json, toks, id, want);
      QuietTop(ms[1..], k + 1 + Count(ms[0].val), id1, json, toks, id, want);
      FirstHitAppend(a, b, Callback(json, toks, id, want));
      hide Events, Callback, FirstHit;
    }
  }
}
