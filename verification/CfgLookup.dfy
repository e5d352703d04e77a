/** _cfg_walk with its stack in arrays, and _cfg_lookup_json on top of it (cfg/cfg.cpp). */
module CfgLookup {
  import opened Wrappers
  import opened JsonText
  import opened CfgWalk

  // The first token for which the callback says to stop.
  function FirstHit(es: seq<Event>, cb: (nat, nat) -> bool): Option<nat> {
    if es == [] then None
    else if es[0].Visit? && cb(es[0].tok, es[0].lvl) then Some(es[0].tok)
    else FirstHit(es[1..], cb)
  }

  lemma {:induction false} FirstHitAppend(a: seq<Event>, b: seq<Event>, cb: (nat, nat) -> bool)
    ensures FirstHit(a + b, cb) == if FirstHit(a, cb).Some? then FirstHit(a, cb) else FirstHit(b, cb)
  {
    if a == [] {
      assert a + b == b;
    } else {
      assert (a + b)[1..] == a[1..] + b;
      FirstHitAppend(a[1..], b, cb);
    }
  }

  // ----- The loop ---------------------------------------------------------------------------------

  // The stack arrays hold these frames, from position 1 on.
  ghost predicate Stacked(rem: array<int>, own: array<int>, lvl: nat, fs: seq<Frame>)
    reads rem, own
  {
    && rem.Length == own.Length == 32 && lvl == |fs| <= 31
    && rem != own
    && forall j | 1 <= j <= lvl :: rem[j] == fs[j - 1].rem && own[j] == fs[j - 1].owner
  }

  function HitOf(hit: bool): int {
    if hit then 2 else -1
  }

  predicate AllCloses(es: seq<Event>) {
    forall i | 0 <= i < |es| :: es[i].Close?
  }

  lemma {:induction false} SettleGrows(s: State)
    ensures exists es: seq<Event> :: Settle(s).trace == s.trace + es && AllCloses(es)
    decreases |s.frames|
  {
    var n := |s.frames|;
    if n > 0 && s.frames[n - 1].rem == 0 {
      var c := Close(s.frames[n - 1].owner, n);
      var t := State(s.frames[..n - 1], s.hit && n - 1 >= 2, s.trace + [c]);
      SettleGrows(t);
      var es: seq<Event> :| Settle(t).trace == t.trace + es && AllCloses(es);
      assert s.trace + [c] + es == s.trace + ([c] + es);
    } else {
      assert s.trace == s.trace + [];
    }
  }

  lemma {:induction false} NoHitInCloses(es: seq<Event>, cb: (nat, nat) -> bool)
    requires AllCloses(es)
    ensures FirstHit(es, cb) == None
  {
    if es != [] {
      NoHitInCloses(es[1..], cb);
    }
  }

  lemma SettleHits(s: State, cb: (nat, nat) -> bool)
    ensures FirstHit(Settle(s).trace, cb) == FirstHit(s.trace, cb)
  {
    SettleGrows(s);
    var es: seq<Event> :| Settle(s).trace == s.trace + es && AllCloses(es);
    NoHitInCloses(es, cb);
    FirstHitAppend(s.trace, es, cb);
  }

  lemma TakenHits(s: State, k: nat, tok: Tok, scope: Scope, text: string, cb: (nat, nat) -> bool)
    ensures var t := Taken(s, k, tok, scope, text);
            FirstHit(t.trace, cb) == if FirstHit(s.trace, cb).Some? then FirstHit(s.trace, cb)
                                     else if Shown(scope, s.hit, |s.frames|) && cb(k, |s.frames|) then Some(k) else None
  {
    FirstHitAppend(s.trace, [Visit(k, |s.frames|)], cb);
    assert [Visit(k, |s.frames|)][1..] == [];
  }

  lemma {:induction false} RunHits(s: State, k: nat, toks: seq<Tok>, scope: Scope, json: string, cb: (nat, nat) -> bool)
    requires FirstHit(s.trace, cb).Some?
    ensures FirstHit(Run(s, k, toks, scope, json).trace, cb) == FirstHit(s.trace, cb)
    decreases |toks|
  {
    if toks != [] {
      var text := TextOf(json, toks[0]);
      TakenHits(s, k, toks[0], scope, text, cb);
      SettleHits(Taken(s, k, toks[0], scope, text), cb);
      hide Taken, Settle, TextOf;
      RunHits(Step(s, k, toks[0], scope, text), k + 1, toks[1..], scope, json, cb);
    }
  }

  lemma {:induction false} RunGrows(s: State, k: nat, toks: seq<Tok>, scope: Scope, json: string)
    ensures s.trace <= Run(s, k, toks, scope, json).trace
    decreases |toks|
  {
    if toks != [] {
      var t := Taken(s, k, toks[0], scope, TextOf(json, toks[0]));
      assert s.trace <= t.trace;
      SettleGrows(t);
      RunGrows(Settle(t), k + 1, toks[1..], scope, json);
    }
  }

  // The closing loop at the end of a step.
  method CloseComplete(rem: array<int>, own: array<int>, lvl: nat, hit: int, calls: seq<Event>, ghost s: State)
    returns (lvl': nat, hit': int, calls': seq<Event>)
    requires Stacked(rem, own, lvl, s.frames) && hit == HitOf(s.hit) && calls == s.trace
    ensures Stacked(rem, own, lvl', Settle(s).frames) && hit' == HitOf(Settle(s).hit) && calls' == Settle(s).trace
  {
    ghost var t := s;
    lvl', hit', calls' := lvl, hit, calls;
    while lvl' > 0 && rem[lvl'] == 0
      invariant Stacked(rem, own, lvl', t.frames) && hit' == HitOf(t.hit) && calls' == t.trace && Settle(t) == Settle(s)
    {
      calls' := calls' + [Close(own[lvl'], lvl')];
      t := State(t.frames[..lvl' - 1], t.hit && lvl' - 1 >= 2, t.trace + [Close(t.frames[lvl' - 1].owner, lvl')]);
      lvl' := lvl' - 1;
      if hit' != -1 && lvl' < hit' {
        hit' := -1;
      }
    }
  }

  // One token: counting it, putting a container on the stack, looking for the level 1 id.
  method Take(json: string, tok: Tok, k: nat, scope: Scope, rem: array<int>, own: array<int>, lvl: nat, hit: int,
      ghost s: State)
    returns (lvl': nat, hit': int)
    requires Stacked(rem, own, lvl, s.frames) && hit == HitOf(s.hit)
    requires Pushed(s, tok) <= 31
    modifies rem, own
    ensures Stacked(rem, own, lvl', Taken(s, k, tok, scope, TextOf(json, tok)).frames)
    ensures hit' == HitOf(Taken(s, k, tok, scope, TextOf(json, tok)).hit)
  {
    lvl', hit' := lvl, hit;
    if lvl > 0 && !tok.HasValue() {
      rem[lvl] := rem[lvl] - 1;
    }
    if tok.IsContainer() {
      lvl' := lvl + 1;
      rem[lvl'] := tok.size;
      own[lvl'] := k;
    }
    if hit' == -1 && lvl' == 1 && tok.IsId() {
      if scope.Under? && TextOf(json, tok) == scope.id {
        hit' := lvl' + 1;
      }
    }
  }

  lemma AfterStep(s: State, i: nat, toks: seq<Tok>, scope: Scope, json: string, cb: (nat, nat) -> bool)
    requires i < |toks| && FirstHit(s.trace, cb) == None
    ensures var r, t := Run(s, i, toks[i..], scope, json), Taken(s, i, toks[i], scope, TextOf(json, toks[i]));
            && (r.frames == [] && Shallow(r.trace, 31) ==> Pushed(s, toks[i]) <= 31)
            && Run(Settle(t), i + 1, toks[i + 1..], scope, json) == r
            && if Shown(scope, s.hit, |s.frames|) && cb(i, |s.frames|) then FirstHit(r.trace, cb) == Some(i)
               else FirstHit(Settle(t).trace, cb) == None
  {
    var t := Taken(s, i, toks[i], scope, TextOf(json, toks[i]));
    assert toks[i..][0] == toks[i] && toks[i..][1..] == toks[i + 1..];
    var r := Run(s, i, toks[i..], scope, json);
    if r.frames == [] && Shallow(r.trace, 31) {
      StackIsDeepEnough(s, i, toks[i..], scope, json, 31);
    }
    RunStep(s, i, toks[i..], scope, json);
    TakenHits(s, i, toks[i], scope, TextOf(json, toks[i]), cb);
    SettleHits(t, cb);
    hide Run, Taken, Settle, TextOf, FirstHit, Shallow;
    if FirstHit(Settle(t).trace, cb).Some? {
      RunHits(Settle(t), i + 1, toks[i + 1..], scope, json, cb);
    }
  }

  // One token: its callback, and what comes of it.
  method OneToken(json: string, tok: Tok, i: nat, scope: Scope, cb: (nat, nat) -> bool, rem: array<int>,
      own: array<int>,
                  lvl: nat, hit: int, calls: seq<Event>, ghost s: State)
    returns (lvl': nat, hit': int, calls': seq<Event>, found: Option<nat>)
    requires Stacked(rem, own, lvl, s.frames) && hit == HitOf(s.hit) && calls == s.trace && Pushed(s, tok) <= 31
    modifies rem, own
    ensures var t := Settle(Taken(s, i, tok, scope, TextOf(json, tok)));
            Stacked(rem, own, lvl', t.frames) && hit' == HitOf(t.hit) && calls' == t.trace
    ensures found == if Shown(scope, s.hit, |s.frames|) && cb(i, |s.frames|) then Some(i) else None
  {
    found, calls' := None, calls;
    if scope.Everything? || lvl == hit {
      calls' := calls + [Visit(i, lvl)];
      if cb(i, lvl) {
        found := Some(i);
      }
    }
    TraceOfTaken(s, i, tok, scope, TextOf(json, tok));
    hide Taken, Settle, TextOf;
    lvl', hit' := Take(json, tok, i, scope, rem, own, lvl, hit, s);
    lvl', hit', calls' := CloseComplete(rem, own, lvl', hit', calls', Taken(s, i, tok, scope, TextOf(json, tok)));
  }

  // Before a callback says to stop, a container would be written behind the end of the stack.
  predicate Overruns(s: State, k: nat, toks: seq<Tok>, scope: Scope, json: string, cb: (nat, nat) -> bool)
    decreases |toks|
  {
    toks != [] && (
      (|s.frames| == 31 && toks[0].IsContainer()) ||
      (!(Shown(scope, s.hit, |s.frames|) && cb(k, |s.frames|)) &&
       Overruns(Step(s, k, toks[0], scope, TextOf(json, toks[0])), k + 1, toks[1..], scope, json, cb)))
  }

  lemma {:induction false} NoOverrun(s: State, k: nat, toks: seq<Tok>, scope: Scope, json: string,
      cb: (nat, nat) -> bool)
    requires var r := Run(s, k, toks, scope, json); r.frames == [] && Shallow(r.trace, 31)
    ensures !Overruns(s, k, toks, scope, json, cb)
    decreases |toks|
  {
    hide Step, Shallow, TextOf;
    if toks != [] {
      StackIsDeepEnough(s, k, toks, scope, json, 31);
      NoOverrun(Step(s, k, toks[0], scope, TextOf(json, toks[0])), k + 1, toks[1..], scope, json, cb);
    }
  }

  lemma OverrunFrom(s: State, i: nat, toks: seq<Tok>, scope: Scope, json: string, cb: (nat, nat) -> bool)
    requires i < |toks|
    ensures Overruns(s, i, toks[i..], scope, json, cb) <==>
            (|s.frames| == 31 && toks[i].IsContainer()) ||
            (!(Shown(scope, s.hit, |s.frames|) && cb(i, |s.frames|)) &&
             Overruns(Settle(Taken(s, i, toks[i], scope, TextOf(json, toks[i]))), i + 1, toks[i + 1..], scope, json,
               cb))
  {
    assert toks[i..][0] == toks[i] && toks[i..][1..] == toks[i + 1..];
    hide Settle, Taken, TextOf, Shown;
  }

  // The callbacks it makes, and the token for which one of them says to stop.  A container that would
  // be written behind the end of the stack is reported instead.
  method Walk(json: string, toks: seq<Tok>, scope: Scope, cb: (nat, nat) -> bool)
    returns (found: Option<nat>, calls: seq<Event>, deep: bool)
    ensures var s := State([], false, []);
            var r := Run(s, 0, toks, scope, json);
            && deep == Overruns(s, 0, toks, scope, json, cb)
            && (!deep ==> found == FirstHit(r.trace, cb) && calls <= r.trace && (found == None ==> calls == r.trace))
  {
    hide Run, Taken, Settle, TextOf, FirstHit, Shallow, Overruns, Shown;
    var rem, own := new int[32](i => 0), new int[32](i => 0);
    var lvl, hit := 0, -1;
    ghost var s := State([], false, []);
    ghost var r, over := Run(s, 0, toks, scope, json), Overruns(s, 0, toks, scope, json, cb);
    NoHitYet(cb);
    found, calls, deep := None, [], false;
    var i := 0;
    assert toks[0..] == toks;
    while i < |toks| && found == None
      invariant i <= |toks|
      invariant Run(s, i, toks[i..], scope, json) == r
      invariant Stacked(rem, own, lvl, s.frames) && hit == HitOf(s.hit) && calls == s.trace
      invariant if found.Some? then FirstHit(r.trace, cb) == found else FirstHit(s.trace, cb) == None
      invariant if found.Some? then !over else over == Overruns(s, i, toks[i..], scope, json, cb)
      decreases |toks| - i
    {
      ghost var t := Taken(s, i, toks[i], scope, TextOf(json, toks[i]));
      AfterStep(s, i, toks, scope, json, cb);
      OverrunFrom(s, i, toks, scope, json, cb);
      if lvl == 31 && toks[i].IsContainer() {
        return None, calls, true;
      }
      lvl, hit, calls, found := OneToken(json, toks[i], i, scope, cb, rem, own, lvl, hit, calls, s);
      s := Settle(t);
      i := i + 1;
    }
    RunGrows(s, i, toks[i..], scope, json);
    assert found == None ==> toks[i..] == [];
    RunNone(s, i, scope, json);
    NothingOverruns(s, i, scope, json, cb);
  }

  lemma NoHitYet(cb: (nat, nat) -> bool)
    ensures FirstHit([], cb) == None
  {
  }

  lemma NothingOverruns(s: State, k: nat, scope: Scope, json: string, cb: (nat, nat) -> bool)
    ensures !Overruns(s, k, [], scope, json, cb)
  {
  }

  lemma TraceOfTaken(s: State, k: nat, tok: Tok, scope: Scope, text: string)
    ensures Taken(s, k, tok, scope, text).trace
            == if Shown(scope, s.hit, |s.frames|) then s.trace + [Visit(k, |s.frames|)] else s.trace
  {
  }

  // ----- Looking for a key ------------------------------------------------------------------------

  predicate Matches(json: string, toks: seq<Tok>, id: string, want: nat, k: nat, lvl: nat) {
    k < |toks| && toks[k].IsId() && lvl == want && TextOf(json, toks[k]) == id
  }

  // _cfg_lookup_json_cb
  function Callback(json: string, toks: seq<Tok>, id: string, want: nat): (nat, nat) -> bool {
    (k: nat, lvl: nat) => Matches(json, toks, id, want, k, lvl)
  }

  // The token of the first key that is id, the members' tokens being numbered from k.
  function FindKey(ms: seq<Member>, k: nat, id: string): Option<nat>
    decreases ms
  {
    if ms == [] then None else if ms[0].key == id then Some(k) else FindKey(ms[1..], k + 1 + Count(ms[0].val), id)
  }

  predicate TokensAt(toks: seq<Tok>, k: nat, part: seq<Tok>) {
    k + |part| <= |toks| && toks[k..k + |part|] == part
  }

  lemma TokensSplit(toks: seq<Tok>, k: nat, a: seq<Tok>, b: seq<Tok>)
    requires TokensAt(toks, k, a + b)
    ensures TokensAt(toks, k, a) && TokensAt(toks, k + |a|, b) && (a != [] ==> toks[k] == a[0])
  {
    var c := toks[k..k + |a + b|];
    assert c[..|a|] == a && c[|a|..] == b;
    assert a != [] ==> c[0] == a[0];
  }

  lemma HitInside(first: seq<Event>, es: seq<Event>, close: Event, cb: (nat, nat) -> bool)
    requires FirstHit(first, cb) == None && close.Close?
    ensures FirstHit(first + (es + [close]), cb) == FirstHit(es, cb)
  {
    FirstHitAppend(first, es + [close], cb);
    FirstHitAppend(es, [close], cb);
    NoHitInCloses([close], cb);
  }

  lemma {:induction false} NoHitBelow(v: Value, k: nat, lvl: nat, m: Mode, json: string, toks: seq<Tok>, id: string,
      want: nat)
    requires lvl > want || m.Quiet?
    ensures FirstHit(Events(v, k, lvl, m), Callback(json, toks, id, want)) == None
    decreases v, 1
  {
    NoHitFirst(k, lvl, m, json, toks, id, want);
    NoHitAround(v, k, lvl, m, json, toks, id, want);
  }

  // Nothing in a value is found if the value itself is not.
  lemma {:induction false} NoHitAround(v: Value, k: nat, lvl: nat, m: Mode, json: string, toks: seq<Tok>, id: string,
      want: nat)
    requires lvl >= want || m.Quiet?
    requires FirstHit(First(k, lvl, m), Callback(json, toks, id, want)) == None
    ensures FirstHit(Events(v, k, lvl, m), Callback(json, toks, id, want)) == None
    decreases v, 0
  {
    EventsOf(v, k, lvl, m);
    hide Events, Callback, ItemEvents, MemberEvents, First, FirstHit;
    if v.Arr? {
      NoHitInItems(v.items, k + 1, lvl + 1, m, json, toks, id, want);
      HitInside(First(k, lvl, m), ItemEvents(v.items, k + 1, lvl + 1, m), Close(k, lvl + 1),
        Callback(json, toks, id, want));
    } else if v.Obj? {
      NoHitInMembers(v.members, k + 1, lvl + 1, m, json, toks, id, want);
      HitInside(First(k, lvl, m), MemberEvents(v.members, k + 1, lvl + 1, m), Close(k, lvl + 1),
        Callback(json, toks, id,
                want));
    }
  }

  lemma NoHitFirst(k: nat, lvl: nat, m: Mode, json: string, toks: seq<Tok>, id: string, want: nat)
    requires lvl != want || m.Quiet? || (k < |toks| && !toks[k].IsId())
    ensures FirstHit(First(k, lvl, m), Callback(json, toks, id, want)) == None
  {
    assert [Visit(k, lvl)][1..] == [];
  }

  lemma {:induction false} NoHitInItems(es: seq<Item>, k: nat, lvl: nat, m: Mode, json: string, toks: seq<Tok>,
      id: string, want: nat)
    requires lvl > want || m.Quiet?
    ensures FirstHit(ItemEvents(es, k, lvl, m), Callback(json, toks, id, want)) == None
    decreases es
  {
    if es != [] {
      hide Events, Callback;
      NoHitBelow(es[0].val, k, lvl, m, json, toks, id, want);
      NoHitInItems(es[1..], k + Count(es[0].val), lvl, m, json, toks, id, want);
      FirstHitAppend(Events(es[0].val, k, lvl, m), ItemEvents(es[1..], k + Count(es[0].val), lvl, m), Callback(json,
                     toks, id, want));
    }
  }

  lemma {:induction false} NoHitInMembers(ms: seq<Member>, k: nat, lvl: nat, m: Mode, json: string, toks: seq<Tok>,
      id: string, want: nat)
    requires lvl > want || m.Quiet?
    ensures FirstHit(MemberEvents(ms, k, lvl, m), Callback(json, toks, id, want)) == None
    decreases ms
  {
    if ms != [] {
      var cb := Callback(json, toks, id, want);
      MembersCons(ms, k, 0, lvl, m);
      NoHitFirst(k, lvl, m, json, toks, id, want);
      hide Events, Callback, First, MemberEvents;
      NoHitBelow(ms[0].val, k + 1, lvl, m, json, toks, id, want);
      NoHitInMembers(ms[1..], k + 1 + Count(ms[0].val), lvl, m, json, toks, id, want);
      FirstHitAppend(First(k, lvl, m), RestEvents(ms, k + 1, lvl, m), cb);
      FirstHitAppend(Events(ms[0].val, k + 1, lvl, m), MemberEvents(ms[1..], k + 1 + Count(ms[0].val), lvl, m), cb);
    }
  }

  // A value on the level searched: neither it nor anything in it is a key there.
  lemma NoHitInValue(v: Value, k: nat, m: Mode, json: string, toks: seq<Tok>, id: string, want: nat)
    requires k < |toks| && !toks[k].IsId()
    ensures FirstHit(Events(v, k, want, m), Callback(json, toks, id, want)) == None
  {
    NoHitFirst(k, want, m, json, toks, id, want);
    NoHitAround(v, k, want, m, json, toks, id, want);
  }

  lemma FirstIsNoKey(v: Value, off: nat)
    ensures !Toks(v, off)[0].IsId()
  {
    ToksOf(v, off);
  }

  // Where the tokens of the first member and of the others are.
  lemma TokensOfMembers(ms: seq<Member>, k: nat, off: nat, toks: seq<Tok>)
    requires ms != [] && TokensAt(toks, k, MemberToks(ms, off))
    ensures var v, p, q := ms[0].val, off + HeadLen(ms[0]), off + |PrintMember(ms[0])| + 1;
            && k + 1 < |toks| && toks[k] == KeyTok(ms[0], off) && toks[k].IsId()
            && toks[k + 1] == Toks(v, p)[0] && !toks[k + 1].IsId()
            && TokensAt(toks, k + 1, Toks(v, p))
            && TokensAt(toks, k + 1 + Count(v), MemberToks(ms[1..], q))
  {
    var v, p, q := ms[0].val, off + HeadLen(ms[0]), off + |PrintMember(ms[0])| + 1;
    MembersCons(ms, k, off, 0, All);
    TokCount(v, p);
    FirstIsNoKey(v, p);
    hide Toks, MemberToks, PrintMember, HeadLen, KeyTok, TokensAt;
    TokensSplit(toks, k, [KeyTok(ms[0], off)], RestToks(ms, off));
    TokensSplit(toks, k + 1, Toks(v, p), MemberToks(ms[1..], q));
    TokensBound(toks, k + 1, Toks(v, p));
  }

  lemma TokensBound(toks: seq<Tok>, k: nat, part: seq<Tok>)
    requires TokensAt(toks, k, part)
    ensures k + |part| <= |toks|
  {
  }

  lemma HitOfKey(m: Member, k: nat, mode: Mode, json: string, toks: seq<Tok>, id: string, want: nat)
    requires Seen(mode, want) && k < |toks| && toks[k].IsId() && TextOf(json, toks[k]) == m.key
    ensures FirstHit(First(k, want, mode), Callback(json, toks, id, want)) == if m.key == id then Some(k) else None
  {
    assert [Visit(k, want)][1..] == [];
  }

  lemma FindKeyCons(ms: seq<Member>, k: nat, id: string)
    requires ms != []
    ensures FindKey(ms, k, id) == if ms[0].key == id then Some(k) else FindKey(ms[1..], k + 1 + Count(ms[0].val), id)
  {
    hide Count;
  }

  lemma HitInPart(f: seq<Event>, ms: seq<Member>, k: nat, want: nat, m: Mode, cb: (nat, nat) -> bool)
    requires ms != [] && FirstHit(Events(ms[0].val, k, want, m), cb) == None
    ensures FirstHit(f + RestEvents(ms, k, want, m), cb)
         == if FirstHit(f, cb).Some? then FirstHit(f,
           cb) else FirstHit(MemberEvents(ms[1..], k + Count(ms[0].val), want, m), cb)
  {
    FirstHitAppend(f, RestEvents(ms, k, want, m), cb);
    FirstHitAppend(Events(ms[0].val, k, want, m), MemberEvents(ms[1..], k + Count(ms[0].val), want, m), cb);
    hide FirstHit, Events, MemberEvents, Count;
  }

  // Members on the level searched: the first key that is id.
  lemma {:induction false} HitInMembers(ms: seq<Member>, k: nat, m: Mode, off: nat, json: string, toks: seq<Tok>,
      id: string, want: nat)
    requires Seen(m, want) && TokensAt(toks, k, MemberToks(ms, off)) && KeysAt(ms, off, json)
    ensures FirstHit(MemberEvents(ms, k, want, m), Callback(json, toks, id, want)) == FindKey(ms, k, id)
    decreases ms, 1
  {
    if ms != [] {
      hide MemberEvents, MemberToks, FirstHit, TokensAt, KeysAt, FindKey, Callback;
      HitInMoreMembers(ms, k, m, off, json, toks, id, want);
    }
  }

  lemma {:induction false} HitInMoreMembers(ms: seq<Member>, k: nat, m: Mode, off: nat, json: string, toks: seq<Tok>,
      id: string, want: nat)
    requires ms != [] && Seen(m, want) && TokensAt(toks, k, MemberToks(ms, off)) && KeysAt(ms, off, json)
    ensures FirstHit(MemberEvents(ms, k, want, m), Callback(json, toks, id, want)) == FindKey(ms, k, id)
    decreases ms, 0
  {
    hide Events, Callback, First, MemberEvents, Toks, MemberToks, PrintMember, HeadLen, FirstHit, TokensAt, TextOf,
      KeyTok, FindKey,
      Count, RestEvents, KeysAt;
    var cb, n, q := Callback(json, toks, id, want), k + 1 + Count(ms[0].val), off + |PrintMember(ms[0])| + 1;
    FirstKeyHit(ms, k, m, off, json, toks, id, want);
    HitInMembers(ms[1..], n, m, q, json, toks, id, want);
    HitInPart(First(k, want, m), ms, k + 1, want, m, cb);
    MembersCons(ms, k, off, want, m);
    FindKeyCons(ms, k, id);
  }

  // The first key, and nothing in its value.
  lemma FirstKeyHit(ms: seq<Member>, k: nat, m: Mode, off: nat, json: string, toks: seq<Tok>, id: string, want: nat)
    requires ms != [] && Seen(m, want) && TokensAt(toks, k, MemberToks(ms, off)) && KeysAt(ms, off, json)
    ensures FirstHit(First(k, want, m), Callback(json, toks, id, want)) == if ms[0].key == id then Some(k) else None
    ensures FirstHit(Events(ms[0].val, k + 1, want, m), Callback(json, toks, id, want)) == None
    ensures TokensAt(toks, k + 1 + Count(ms[0].val), MemberToks(ms[1..], off + |PrintMember(ms[0])| + 1))
    ensures KeysAt(ms[1..], off + |PrintMember(ms[0])| + 1, json)
  {
    KeysCons(ms, off, json);
    hide Events, Callback, First, Toks, MemberToks, PrintMember, HeadLen, FirstHit, TokensAt, TextOf, KeyTok, Count,
      KeysAt;
    TokensOfMembers(ms, k, off, toks);
    HitOfKey(ms[0], k, m, json, toks, id, want);
    NoHitInValue(ms[0].val, k + 1, m, json, toks, id, want);
  }

  lemma KeysCons(ms: seq<Member>, off: nat, json: string)
    requires ms != [] && KeysAt(ms, off, json)
    ensures TextOf(json, KeyTok(ms[0], off)) == ms[0].key && KeysAt(ms[1..], off + |PrintMember(ms[0])| + 1, json)
  {
    hide TextOf, KeyTok, PrintMember;
  }

  // Elements on the level searched are no keys.
  lemma {:induction false} NoHitInElements(es: seq<Item>, k: nat, m: Mode, off: nat, json: string, toks: seq<Tok>,
      id: string, want: nat)
    requires TokensAt(toks, k, ItemToks(es, off))
    ensures FirstHit(ItemEvents(es, k, want, m), Callback(json, toks, id, want)) == None
    decreases es
  {
    if es != [] {
      var cb := Callback(json, toks, id, want);
      var v, p, q := es[0].val, off + |es[0].pre|, off + |PrintItem(es[0])| + 1;
      ItemsCons(es, k, off, want, m);
      FirstIsNoKey(v, p);
      TokCount(v, p);
      hide Events, Callback, ItemEvents, Toks, ItemToks, PrintItem, FirstHit, TokensAt;
      TokensSplit(toks, k, Toks(v, p), ItemToks(es[1..], q));
      TokensBound(toks, k, Toks(v, p));
      NoHitInValue(v, k, m, json, toks, id, want);
      NoHitInElements(es[1..], k + Count(v), m, q, json, toks, id, want);
      FirstHitAppend(Events(v, k, want, m), ItemEvents(es[1..], k + Count(v), want, m), cb);
    }
  }

  // What is called back in a level 1 value that is searched.
  lemma HitInArray(v: Value, k: nat, off: nat, json: string, toks: seq<Tok>, id: string)
    requires v.Arr? && TokensAt(toks, k, Toks(v, off))
    ensures FirstHit(Events(v, k, 1, Second), Callback(json, toks, id, 2)) == None
  {
    hide Events, Callback, ItemEvents, First, Toks, ItemToks, FirstHit, TokensAt;
    EventsOf(v, k, 1, Second);
    ToksOf(v, off);
    TokensSplit(toks, k, [Toks(v, off)[0]], ItemToks(v.items, off + 1));
    NoHitFirst(k, 1, Second, json, toks, id, 2);
    NoHitInElements(v.items, k + 1, Second, off + 1, json, toks, id, 2);
    HitInside(First(k, 1, Second), ItemEvents(v.items, k + 1, 2, Second), Close(k, 2), Callback(json, toks, id, 2));
  }

  lemma HitInObject(v: Value, k: nat, off: nat, json: string, toks: seq<Tok>, id: string)
    requires v.Obj? && TokensAt(toks, k, Toks(v, off)) && KeysAt(v.members, off + 1, json)
    ensures FirstHit(Events(v, k, 1, Second), Callback(json, toks, id, 2)) == FindKey(v.members, k + 1, id)
  {
    hide Events, Callback, MemberEvents, First, Toks, MemberToks, FirstHit, TokensAt, KeysAt, FindKey;
    EventsOf(v, k, 1, Second);
    ToksOf(v, off);
    TokensSplit(toks, k, [Toks(v, off)[0]], MemberToks(v.members, off + 1));
    NoHitFirst(k, 1, Second, json, toks, id, 2);
    HitInMembers(v.members, k + 1, Second, off + 1, json, toks, id, 2);
    HitInside(First(k, 1, Second), MemberEvents(v.members, k + 1, 2, Second), Close(k, 2), Callback(json, toks, id, 2));
  }

  lemma HitInBox(v: Value, k: nat, off: nat, json: string, toks: seq<Tok>, id: string)
    requires TokensAt(toks, k, Toks(v, off)) && (v.Obj? ==> KeysAt(v.members, off + 1, json))
    ensures FirstHit(Events(v, k, 1, Second), Callback(json, toks, id, 2))
         == if v.Obj? then FindKey(v.members, k + 1, id) else None
  {
    hide Events, Callback, First, Toks, FirstHit, TokensAt, KeysAt, FindKey;
    if v.Arr? {
      HitInArray(v, k, off, json, toks, id);
    } else if v.Obj? {
      HitInObject(v, k, off, json, toks, id);
    } else {
      EventsOf(v, k, 1, Second);
      NoHitFirst(k, 1, Second, json, toks, id, 2);
    }
  }

  // The keys of the objects that are level 1 values are where their tokens say, too.
  predicate InnerKeysAt(ms: seq<Member>, off: nat, json: string)
    decreases ms
  {
    ms == [] ||
    (&& (ms[0].val.Obj? ==> KeysAt(ms[0].val.members, off + HeadLen(ms[0]) + 1, json))
     && InnerKeysAt(ms[1..], off + |PrintMember(ms[0])| + 1, json))
  }

  // What the walk for id1.id2 comes to: every container value is searched that follows the key id1
  // with only values in between that are not containers.
  function Find2(ms: seq<Member>, k: nat, hit: bool, id1: string, id2: string): Option<nat>
    decreases ms
  {
    if ms == [] then None
    else
      var v, hit1 := ms[0].val, hit || ms[0].key == id1;
      var here := if hit1 && v.Obj? then FindKey(v.members, k + 2, id2) else None;
      if here.Some? then here else Find2(ms[1..], k + 1 + Count(v), hit1 && !IsBox(v), id1, id2)
  }

  lemma HitInTopValue(v: Value, k: nat, hit: bool, off: nat, json: string, toks: seq<Tok>, id1: string, id2: string)
    requires TokensAt(toks, k, Toks(v, off)) && (v.Obj? ==> KeysAt(v.members, off + 1, json))
    ensures FirstHit(Events(v, k, 1, ModeOf(Under(id1), hit)), Callback(json, toks, id2, 2))
         == if hit && v.Obj? then FindKey(v.members, k + 1, id2) else None
  {
    hide Events, Callback, Toks, FirstHit, TokensAt, KeysAt, FindKey;
    if hit {
      HitInBox(v, k, off, json, toks, id2);
    } else {
      NoHitBelow(v, k, 1, Quiet, json, toks, id2, 2);
    }
  }

  lemma HitInTopRest(ms: seq<Member>, k: nat, hit: bool, id: string, cb: (nat, nat) -> bool)
    requires ms != []
    ensures var v := ms[0].val;
            var here := FirstHit(Events(v, k, 1, ModeOf(Under(id), hit)), cb);
            FirstHit(TopRest(ms, k, hit, id), cb)
            == if here.Some? then here else FirstHit(TopEvents(ms[1..], k + Count(v), hit && !IsBox(v), id), cb)
  {
    var v := ms[0].val;
    hide Events, TopEvents, FirstHit, Count;
    FirstHitAppend(Events(v, k, 1, ModeOf(Under(id), hit)), TopEvents(ms[1..], k + Count(v), hit && !IsBox(v), id), cb);
  }

  lemma Find2Cons(ms: seq<Member>, k: nat, hit: bool, id1: string, id2: string)
    requires ms != []
    ensures var v, hit1 := ms[0].val, hit || ms[0].key == id1;
            var here := if hit1 && v.Obj? then FindKey(v.members, k + 2, id2) else None;
            Find2(ms, k, hit, id1, id2)
            == if here.Some? then here else Find2(ms[1..], k + 1 + Count(v), hit1 && !IsBox(v), id1, id2)
  {
    hide FindKey, Count;
  }

  lemma {:induction false} HitInTop(ms: seq<Member>, k: nat, hit: bool, off: nat, json: string, toks: seq<Tok>,
      id1: string, id2: string)
    requires TokensAt(toks, k, MemberToks(ms, off)) && InnerKeysAt(ms, off, json)
    ensures FirstHit(TopEvents(ms, k, hit, id1), Callback(json, toks, id2, 2)) == Find2(ms, k, hit, id1, id2)
    decreases ms, 1
  {
    if ms != [] {
      var hit1 := hit || ms[0].key == id1;
      Find2Cons(ms, k, hit, id1, id2);
      Find2Cons(ms, k, hit1, id1, id2);
      TopCons(ms, k, hit, id1);
      hide InnerKeysAt, TokensAt, TopEvents, TopRest, MemberToks, Find2;
      HitInTopMore(ms, k, hit1, off, json, toks, id1, id2);
    }
  }

  lemma {:induction false} HitInTopMore(ms: seq<Member>, k: nat, hit: bool, off: nat, json: string, toks: seq<Tok>,
      id1: string, id2: string)
    requires ms != [] && TokensAt(toks, k, MemberToks(ms, off)) && InnerKeysAt(ms, off, json)
             && (ms[0].key == id1 ==> hit)
    ensures FirstHit(TopRest(ms, k + 1, hit, id1), Callback(json, toks, id2, 2)) == Find2(ms, k, hit, id1, id2)
    decreases ms, 0
  {
    hide Find2, Events, Callback, Toks, MemberToks, TopEvents, TopRest, PrintMember, HeadLen, FirstHit, TokensAt,
      InnerKeysAt, KeysAt,
      FindKey, Count, ModeOf, TopHit, HitsFirst;
    var n, q, cb := k + 1 + Count(ms[0].val), off + |PrintMember(ms[0])| + 1, Callback(json, toks, id2, 2);
    Find2Cons(ms, k, hit, id1, id2);
    HitInFirst(ms, k, hit, off, json, toks, id1, id2);
    HitInTop(ms[1..], n, hit && !IsBox(ms[0].val), q, json, toks, id1, id2);
    HitInTopRest(ms, k + 1, hit, id1, cb);
    HitsFirstUnfolded(ms, k, hit, json, toks, id1, id2);
  }

  // What is found in the first member's value.
  predicate HitsFirst(ms: seq<Member>, k: nat, hit: bool, json: string, toks: seq<Tok>, id1: string, id2: string)
    requires ms != []
  {
    FirstHit(Events(ms[0].val, k + 1, 1, ModeOf(Under(id1), hit)), Callback(json, toks, id2, 2))
    == if hit && ms[0].val.Obj? then FindKey(ms[0].val.members, k + 2, id2) else None
  }

  lemma HitsFirstUnfolded(ms: seq<Member>, k: nat, hit: bool, json: string, toks: seq<Tok>, id1: string, id2: string)
    requires ms != [] && HitsFirst(ms, k, hit, json, toks, id1, id2)
    ensures FirstHit(Events(ms[0].val, k + 1, 1, ModeOf(Under(id1), hit)), Callback(json, toks, id2, 2))
         == if hit && ms[0].val.Obj? then FindKey(ms[0].val.members, k + 2, id2) else None
  {
    hide FirstHit, Events, ModeOf, Callback, FindKey;
  }

  lemma HitInFirst(ms: seq<Member>, k: nat, hit: bool, off: nat, json: string, toks: seq<Tok>, id1: string, id2: string)
    requires ms != [] && TokensAt(toks, k, MemberToks(ms, off)) && InnerKeysAt(ms, off, json)
    ensures HitsFirst(ms, k, hit, json, toks, id1, id2)
    ensures TokensAt(toks, k + 1 + Count(ms[0].val), MemberToks(ms[1..], off + |PrintMember(ms[0])| + 1))
    ensures InnerKeysAt(ms[1..], off + |PrintMember(ms[0])| + 1, json)
  {
    InnerKeysCons(ms, off, json);
    hide Events, Callback, Toks, MemberToks, PrintMember, HeadLen, FirstHit, TokensAt, InnerKeysAt, KeysAt, KeyTok,
      FindKey, Count, ModeOf;
    TokensOfMembers(ms, k, off, toks);
    HitInTopValue(ms[0].val, k + 1, hit, off + HeadLen(ms[0]), json, toks, id1, id2);
  }

  lemma InnerKeysCons(ms: seq<Member>, off: nat, json: string)
    requires ms != [] && InnerKeysAt(ms, off, json)
    ensures InnerKeysAt(ms[1..], off + |PrintMember(ms[0])| + 1, json)
    ensures ms[0].val.Obj? ==> KeysAt(ms[0].val.members, off + HeadLen(ms[0]) + 1, json)
  {
  }

  // ----- Where keys are in a printed text ---------------------------------------------------------

  predicate Shows(json: string, off: nat, s: string) {
    off + |s| <= |json| && json[off..off + |s|] == s
  }

  lemma ShowsPart(json: string, off: nat, a: string, b: string, c: string)
    requires Shows(json, off, a + b + c)
    ensures Shows(json, off + |a|, b)
  {
    var s := a + b + c;
    assert s[|a|..|a| + |b|] == b;
    SliceOfSlice(json, off, off + |s|, |a|, |a| + |b|);
  }

  lemma SliceOfSlice(s: string, lo: nat, hi: nat, a: nat, b: nat)
    requires lo <= hi <= |s| && a <= b <= hi - lo
    ensures s[lo..hi][a..b] == s[lo + a..lo + b]
  {
    var t := s[lo..hi];
    forall i | 0 <= i < b - a ensures t[a..b][i] == s[lo + a..lo + b][i] {
      assert t[a..b][i] == t[a + i] == s[lo + (a + i)];
    }
    assert t[a..b] == s[lo + a..lo + b];
  }

  lemma ShowsKey(m: Member, off: nat, json: string)
    requires Shows(json, off, PrintMember(m))
    ensures TextOf(json, KeyTok(m, off)) == m.key && Shows(json, off + HeadLen(m), Print(m.val))
  {
    hide Print, PrintMember;
    var v := Print(m.val);
    var x := "\"" + m.colon + ":" + m.mid;
    MemberRegrouped(m);
    ShowsPart(json, off, m.pre + "\"", m.key, x + v + m.post);
    ShowsPart(json, off, m.pre + "\"" + m.key + x, v, m.post);
  }

  lemma RegroupKey(m: Member, v: string)
    ensures var x := "\"" + m.colon + ":" + m.mid;
            var s := m.pre + ("\"" + m.key + "\"" + m.colon + ":" + m.mid + v + m.post);
            s == (m.pre + "\"") + m.key + (x + v + m.post) && s == (m.pre + "\"" + m.key + x) + v + m.post
  {
  }

  lemma MemberRegrouped(m: Member)
    ensures var x, v := "\"" + m.colon + ":" + m.mid, Print(m.val);
            && PrintMember(m) == (m.pre + "\"") + m.key + (x + v + m.post)
            && PrintMember(m) == (m.pre + "\"" + m.key + x) + v + m.post
  {
    hide Print;
    RegroupKey(m, Print(m.val));
  }

  lemma ShowsMembers(ms: seq<Member>, off: nat, json: string)
    requires ms != [] && Shows(json, off, PrintMembers(ms))
    ensures Shows(json, off, PrintMember(ms[0]))
    ensures |ms| > 1 ==> Shows(json, off + |PrintMember(ms[0])| + 1, PrintMembers(ms[1..]))
  {
    var p, r := PrintMember(ms[0]), PrintMembers(ms[1..]);
    assert |ms| > 1 ==> PrintMembers(ms) == p + "," + r;
    hide PrintMember, PrintMembers, Shows;
    if |ms| > 1 {
      ShowsBoth(json, off, p, r);
    }
  }

  lemma ShowsBoth(json: string, off: nat, a: string, b: string)
    requires Shows(json, off, a + "," + b)
    ensures Shows(json, off, a) && Shows(json, off + |a| + 1, b)
  {
    hide Shows;
    assert "" + a + ("," + b) == a + "," + b && (a + ",") + b + "" == a + "," + b;
    ShowsPart(json, off, "", a, "," + b);
    ShowsPart(json, off, a + ",", b, "");
  }

  lemma {:induction false} ShownKeys(ms: seq<Member>, off: nat, json: string)
    requires ms == [] || Shows(json, off, PrintMembers(ms))
    ensures KeysAt(ms, off, json)
    decreases ms
  {
    if ms != [] {
      ShowsMembers(ms, off, json);
      ShowsKey(ms[0], off, json);
      hide PrintMember, PrintMembers, Print, HeadLen, Shows, TextOf, KeyTok;
      ShownKeys(ms[1..], off + |PrintMember(ms[0])| + 1, json);
    }
  }

  lemma {:induction false} ShownInnerKeys(ms: seq<Member>, off: nat, json: string)
    requires ms == [] || Shows(json, off, PrintMembers(ms))
    ensures InnerKeysAt(ms, off, json)
    decreases ms
  {
    if ms != [] {
      ShowsMembers(ms, off, json);
      ShowsKey(ms[0], off, json);
      hide PrintMember, PrintMembers, Print, HeadLen, Shows, TextOf, KeyTok, KeysAt;
      ShownInner(ms[0].val, off + HeadLen(ms[0]), json);
      ShownInnerKeys(ms[1..], off + |PrintMember(ms[0])| + 1, json);
    }
  }

  lemma ShownInner(v: Value, off: nat, json: string)
    requires Shows(json, off, Print(v))
    ensures v.Obj? ==> KeysAt(v.members, off + 1, json)
  {
    if v.Obj? && v.members != [] {
      assert Print(v) == "{" + PrintMembers(v.members) + "}";
      hide Print, PrintMembers, KeysAt;
      ShowsPart(json, off, "{", PrintMembers(v.members), "}");
      ShownKeys(v.members, off + 1, json);
    }
  }
}
