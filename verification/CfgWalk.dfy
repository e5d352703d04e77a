/** Walking a flat token array with a stack of counts: _cfg_walk of cfg/cfg.cpp, and that it recovers
    the tree the tokens were made from.  The tokens are those jsmn delivers: the tree in pre-order, a
    key having size 1, a container the number of its values. */
module CfgWalk {
  import opened JsonText

  // ----- Tokens -----------------------------------------------------------------------------------

  datatype Kind = TObj | TArr | TStr | TPrim
  datatype Tok = Tok(kind: Kind, start: nat, end: nat, size: nat) {
    predicate IsId() { kind == TStr && size == 1 }
    predicate HasValue() { kind == TStr && size != 0 }       // not a value itself
    predicate IsContainer() { kind == TObj || kind == TArr }
  }

  function HeadLen(m: Member): nat {
    |m.pre| + 1 + |m.key| + 1 + |m.colon| + 1 + |m.mid|
  }

  function Toks(v: Value, off: nat): (r: seq<Tok>)
    ensures r != []
    decreases v
  {
    var end := off + |Print(v)|;
    match v
    case Prim(_) => [Tok(TPrim, off, end, 0)]
    case Str(t) => [Tok(TStr, off + 1, off + 1 + |t|, 0)]
    case Arr(items, _) => [Tok(TArr, off, end, |items|)] + ItemToks(items, off + 1)
    case Obj(members, _) => [Tok(TObj, off, end, |members|)] + MemberToks(members, off + 1)
  }

  function ItemToks(es: seq<Item>, off: nat): seq<Tok>
    decreases es
  {
    if es == [] then []
    else Toks(es[0].val, off + |es[0].pre|) + ItemToks(es[1..], off + |PrintItem(es[0])| + 1)
  }

  function MemberToks(ms: seq<Member>, off: nat): seq<Tok>
    decreases ms
  {
    if ms == [] then []
    else
      [KeyTok(ms[0], off)] + Toks(ms[0].val, off + HeadLen(ms[0])) +
      MemberToks(ms[1..], off + |PrintMember(ms[0])| + 1)
  }

  function KeyTok(m: Member, off: nat): Tok {
    Tok(TStr, off + |m.pre| + 1, off + |m.pre| + 1 + |m.key|, 1)
  }

  // How deep containers are nested.
  function Depth(v: Value): nat
    decreases v
  {
    match v
    case Arr(items, _) => 1 + ItemDepth(items)
    case Obj(members, _) => 1 + MemberDepth(members)
    case _ => 0
  }

  function ItemDepth(es: seq<Item>): nat
    decreases es
  {
    if es == [] then 0 else Max(Depth(es[0].val), ItemDepth(es[1..]))
  }

  function MemberDepth(ms: seq<Member>): nat
    decreases ms
  {
    if ms == [] then 0 else Max(Depth(ms[0].val), MemberDepth(ms[1..]))
  }

  function Max(a: nat, b: nat): nat {
    if a < b then b else a
  }

  // ----- The walk, one token at a time ------------------------------------------------------------

  // A container that is open: values still to come, and its token.
  datatype Frame = Frame(rem: int, owner: nat)

  // Callbacks: for a token, or for the end of a container.
  datatype Event = Visit(tok: nat, lvl: nat) | Close(tok: nat, lvl: nat)

  datatype State = State(frames: seq<Frame>, hit: bool, trace: seq<Event>)

  // Which callbacks the walk makes: all, or only those inside the level 1 object that is searched.
  datatype Scope = Everything | Under(id: string)

  predicate Shown(scope: Scope, hit: bool, lvl: nat) {
    scope.Everything? || (hit && lvl == 2)
  }

  // Closing the containers that are complete.
  function Settle(s: State): State
    decreases |s.frames|
  {
    var n := |s.frames|;
    if n > 0 && s.frames[n - 1].rem == 0
    then Settle(State(s.frames[..n - 1], s.hit && n - 1 >= 2, s.trace + [Close(s.frames[n - 1].owner, n)]))
    else s
  }

  // One value less to come.
  function Counted(fs: seq<Frame>): seq<Frame> {
    if fs == [] then fs else fs[..|fs| - 1] + [fs[|fs| - 1].(rem := fs[|fs| - 1].rem - 1)]
  }

  // A token, up to the loop that closes what is complete.
  function Taken(s: State, k: nat, tok: Tok, scope: Scope, text: string): State {
    var lvl := |s.frames|;
    var counted := if tok.HasValue() then s.frames else Counted(s.frames);
    var trace := if Shown(scope, s.hit, lvl) then s.trace + [Visit(k, lvl)] else s.trace;
    var frames := if tok.IsContainer() then counted + [Frame(tok.size, k)] else counted;
    State(frames, s.hit || (|frames| == 1 && tok.IsId() && scope.Under? && scope.id == text), trace)
  }

  function Step(s: State, k: nat, tok: Tok, scope: Scope, text: string): State {
    Settle(Taken(s, k, tok, scope, text))
  }

  function TextOf(json: string, tok: Tok): string {
    if tok.start <= tok.end <= |json| then json[tok.start..tok.end] else ""
  }

  // The tokens from number k on.
  function Run(s: State, k: nat, toks: seq<Tok>, scope: Scope, json: string): State
    decreases |toks|
  {
    if toks == [] then s else Run(Step(s, k, toks[0], scope, TextOf(json, toks[0])), k + 1, toks[1..], scope, json)
  }

  lemma RunStep(s: State, k: nat, toks: seq<Tok>, scope: Scope, json: string)
    requires toks != []
    ensures Run(s, k, toks, scope, json)
            == Run(Step(s, k, toks[0], scope, TextOf(json, toks[0])), k + 1, toks[1..], scope, json)
  {
    hide Step, TextOf;
  }

  lemma ConsAppend(a: seq<Tok>, b: seq<Tok>)
    requires a != []
    ensures a + b != [] && (a + b)[1..] == a[1..] + b && (a + b)[0] == a[0]
  {
  }

  lemma {:induction false} RunAppend(s: State, k: nat, a: seq<Tok>, b: seq<Tok>, scope: Scope, json: string)
    ensures Run(s, k, a + b, scope, json) == Run(Run(s, k, a, scope, json), k + |a|, b, scope, json)
    decreases |a|
  {
    hide Run, Step, TextOf;
    if a == [] {
      assert a + b == b;
      RunNone(s, k, scope, json);
    } else {
      var s1 := Step(s, k, a[0], scope, TextOf(json, a[0]));
      RunAppend(s1, k + 1, a[1..], b, scope, json);
      assert k + 1 + |a[1..]| == k + |a|;
      ConsAppend(a, b);
      RunStep(s, k, a, scope, json);
      RunStep(s, k, a + b, scope, json);
      assert Run(s, k, a + b, scope, json) == Run(s1, k + 1, a[1..] + b, scope, json);
    }
  }

  lemma RunNone(s: State, k: nat, scope: Scope, json: string)
    ensures Run(s, k, [], scope, json) == s
  {
  }

  // ----- The callbacks a tree should get ----------------------------------------------------------

  // What is called back in a part of the tree: all, the second level, nothing.
  datatype Mode = All | Second | Quiet

  function ModeOf(scope: Scope, hit: bool): Mode {
    if scope.Everything? then All else if hit then Second else Quiet
  }

  predicate Seen(m: Mode, lvl: nat) {
    m.All? || (m.Second? && lvl == 2)
  }

  function Events(v: Value, k: nat, lvl: nat, m: Mode): seq<Event>
    decreases v
  {
    var first := if Seen(m, lvl) then [Visit(k, lvl)] else [];
    match v
    case Arr(items, _) => first + ItemEvents(items, k + 1, lvl + 1, m) + [Close(k, lvl + 1)]
    case Obj(members, _) => first + MemberEvents(members, k + 1, lvl + 1, m) + [Close(k, lvl + 1)]
    case _ => first
  }

  function Count(v: Value): (n: nat)
    ensures n >= 1
    decreases v
  {
    match v
    case Arr(items, _) => 1 + ItemCount(items)
    case Obj(members, _) => 1 + MemberCount(members)
    case _ => 1
  }

  function ItemCount(es: seq<Item>): nat
    decreases es
  {
    if es == [] then 0 else Count(es[0].val) + ItemCount(es[1..])
  }

  function MemberCount(ms: seq<Member>): nat
    decreases ms
  {
    if ms == [] then 0 else 1 + Count(ms[0].val) + MemberCount(ms[1..])
  }

  function ItemEvents(es: seq<Item>, k: nat, lvl: nat, m: Mode): seq<Event>
    decreases es
  {
    if es == [] then []
    else Events(es[0].val, k, lvl, m) + ItemEvents(es[1..], k + Count(es[0].val), lvl, m)
  }

  function MemberEvents(ms: seq<Member>, k: nat, lvl: nat, m: Mode): seq<Event>
    decreases ms
  {
    if ms == [] then []
    else (if Seen(m, lvl) then [Visit(k, lvl)] else []) + Events(ms[0].val, k + 1, lvl, m)
         + MemberEvents(ms[1..], k + 1 + Count(ms[0].val), lvl, m)
  }

  // ----- The walk finds the tree ------------------------------------------------------------------

  lemma {:induction false} TokCount(v: Value, off: nat)
    ensures |Toks(v, off)| == Count(v)
    decreases v
  {
    match v
    case Arr(items, _) => ItemTokCount(items, off + 1);
    case Obj(members, _) => MemberTokCount(members, off + 1);
    case _ =>
  }

  lemma {:induction false} ItemTokCount(es: seq<Item>, off: nat)
    ensures |ItemToks(es, off)| == ItemCount(es)
    decreases es
  {
    if es != [] {
      TokCount(es[0].val, off + |es[0].pre|);
      ItemTokCount(es[1..], off + |PrintItem(es[0])| + 1);
    }
  }

  lemma {:induction false} MemberTokCount(ms: seq<Member>, off: nat)
    ensures |MemberToks(ms, off)| == MemberCount(ms)
    decreases ms
  {
    if ms != [] {
      TokCount(ms[0].val, off + HeadLen(ms[0]));
      MemberTokCount(ms[1..], off + |PrintMember(ms[0])| + 1);
    }
  }

  // Below the top level, or if everything is called back, the state of the search stays as it is.
  predicate Steady(s: State, scope: Scope) {
    (scope.Everything? && !s.hit) || |s.frames| >= 2
  }

  predicate Expects(fs: seq<Frame>, n: nat) {
    fs != [] && fs[|fs| - 1].rem == n
  }

  function Done(fs: seq<Frame>): seq<Frame>
    requires fs != []
  {
    fs[..|fs| - 1] + [fs[|fs| - 1].(rem := 0)]
  }

  // The tokens lead to this state, up to closing what is complete in it.
  predicate Reaches(s: State, k: nat, toks: seq<Tok>, scope: Scope, json: string, t: State) {
    Run(s, k, toks, scope, json) == Settle(t)
  }

  function First(k: nat, lvl: nat, m: Mode): seq<Event> {
    if Seen(m, lvl) then [Visit(k, lvl)] else []
  }

  // The state later on, with other frames and more callbacks.
  function Later(s: State, fs: seq<Frame>, es: seq<Event>): (t: State)
    ensures t.frames == fs && t.hit == s.hit
  {
    State(fs, s.hit, s.trace + es)
  }

  lemma LaterStill(s: State, fs: seq<Frame>, a: seq<Event>, gs: seq<Frame>, b: seq<Event>)
    ensures Later(Later(s, fs, a), gs, b) == Later(s, gs, a + b)
    ensures Later(s, s.frames, []) == s
  {
    assert s.trace + a + b == s.trace + (a + b);
    assert s.trace + [] == s.trace;
  }

  function Opened(s: State, k: nat, size: nat): seq<Frame> {
    Counted(s.frames) + [Frame(size, k)]
  }

  lemma StepOfValue(s: State, k: nat, tok: Tok, scope: Scope, text: string)
    requires !tok.HasValue()
    ensures Step(s, k, tok, scope, text)
         == Settle(Later(s, if tok.IsContainer() then Opened(s, k, tok.size) else Counted(s.frames),
                         First(k, |s.frames|, ModeOf(scope, s.hit))))
  {
    hide Settle;
    assert s.trace + [] == s.trace;
  }

  lemma StepOfKey(s: State, k: nat, tok: Tok, scope: Scope, text: string)
    requires tok.IsId() && Steady(s, scope) && s.frames != [] && s.frames[|s.frames| - 1].rem != 0
    ensures Step(s, k, tok, scope, text) == Later(s, s.frames, First(k, |s.frames|, ModeOf(scope, s.hit)))
  {
    assert s.trace + [] == s.trace;
  }

  lemma RunCons(s: State, k: nat, tok: Tok, toks: seq<Tok>, scope: Scope, json: string)
    ensures Run(s, k, [tok] + toks, scope, json)
            == Run(Step(s, k, tok, scope, TextOf(json, tok)), k + 1, toks, scope, json)
    ensures Run(s, k, [tok], scope, json) == Step(s, k, tok, scope, TextOf(json, tok))
  {
    assert ([tok] + toks)[1..] == toks;
    assert [tok][1..] == [];
  }

  lemma FramesFacts(s: State, k: nat, size: nat)
    ensures |Counted(s.frames)| == |s.frames|
    ensures |Opened(s, k, size)| == |s.frames| + 1 && Expects(Opened(s, k, size), size)
  {
  }

  lemma CloseLast(s: State, t: State, k: nat, size: nat, es: seq<Event>)
    requires t.frames == Opened(s, k, size) && (!t.hit || |s.frames| >= 2)
    ensures Settle(Later(t, Done(t.frames), es)) == Settle(Later(t, Counted(s.frames), es + [Close(k, |s.frames| + 1)]))
  {
    var u := Later(t, Done(t.frames), es);
    assert u.frames[..|s.frames|] == Counted(s.frames);
    assert t.trace + es + [Close(k, |s.frames| + 1)] == t.trace + (es + [Close(k, |s.frames| + 1)]);
  }

  // A container: its token, what is inside, and its end.
  lemma RunContainer(s: State, k: nat, tok: Tok, toks: seq<Tok>, es: seq<Event>, scope: Scope, json: string)
    requires Steady(s, scope) && tok.IsContainer()
    requires var t := Later(s, Opened(s, k, tok.size), First(k, |s.frames|, ModeOf(scope, s.hit)));
             Reaches(Settle(t), k + 1, toks, scope, json, Later(t, Done(t.frames), es))
    ensures var all := First(k, |s.frames|, ModeOf(scope, s.hit)) + (es + [Close(k, |s.frames| + 1)]);
            Reaches(s, k, [tok] + toks, scope, json, Later(s, Counted(s.frames), all))
  {
    var f, c := First(k, |s.frames|, ModeOf(scope, s.hit)), es + [Close(k, |s.frames| + 1)];
    var t := Later(s, Opened(s, k, tok.size), f);
    hide Run, Settle, Step, First, Later, Opened, Counted, Done, TextOf;
    StepOfValue(s, k, tok, scope, TextOf(json, tok));
    RunCons(s, k, tok, toks, scope, json);
    CloseLast(s, t, k, tok.size, es);
    LaterStill(s, t.frames, f, Counted(s.frames), c);
  }

  lemma RunLeaf(s: State, k: nat, tok: Tok, scope: Scope, json: string)
    requires !tok.HasValue() && !tok.IsContainer()
    ensures Reaches(s, k, [tok], scope, json, Later(s, Counted(s.frames), First(k, |s.frames|, ModeOf(scope, s.hit))))
  {
    hide Run, Step, Settle, First, Counted, Later;
    RunCons(s, k, tok, [], scope, json);
    StepOfValue(s, k, tok, scope, TextOf(json, tok));
  }

  lemma EventsOf(v: Value, k: nat, lvl: nat, m: Mode)
    ensures Events(v, k, lvl, m) ==
            match v
            case Arr(items, _) => First(k, lvl, m) + (ItemEvents(items, k + 1, lvl + 1, m) + [Close(k, lvl + 1)])
            case Obj(members, _) => First(k, lvl, m) + (MemberEvents(members, k + 1, lvl + 1, m) + [Close(k, lvl + 1)])
            case _ => First(k, lvl, m)
  {
    hide ItemEvents, MemberEvents;
    AssocEvents(First(k, lvl, m), if v.Arr? then ItemEvents(v.items, k + 1, lvl + 1, m) else [], [Close(k, lvl + 1)]);
    AssocEvents(First(k, lvl, m), if v.Obj? then MemberEvents(v.members, k + 1, lvl + 1, m) else [],
      [Close(k, lvl + 1)]);
  }

  lemma AssocEvents(a: seq<Event>, b: seq<Event>, c: seq<Event>)
    ensures (a + b) + c == a + (b + c)
  {
  }

  lemma ToksOf(v: Value, off: nat)
    ensures var tok := Toks(v, off)[0];
            match v
            case Arr(items, _) => tok.kind == TArr && tok.size == |items|
              && Toks(v, off) == [tok] + ItemToks(items, off + 1)
            case Obj(members, _) => tok.kind == TObj && tok.size == |members|
              && Toks(v, off) == [tok] + MemberToks(members, off + 1)
            case _ => !tok.HasValue() && !tok.IsContainer() && Toks(v, off) == [tok]
  {
    hide Print, ItemToks, MemberToks;
  }

  lemma {:induction false} RunArray(s: State, k: nat, v: Value, off: nat, scope: Scope, json: string)
    requires Steady(s, scope) && v.Arr?
    ensures Reaches(s, k, Toks(v, off), scope, json,
            Later(s, Counted(s.frames), Events(v, k, |s.frames|, ModeOf(scope, s.hit))))
    decreases v, 0
  {
    hide Reaches, Settle, Toks, First, Counted, Opened, Done, Events, ItemToks, ItemEvents, Later, Expects, ModeOf;
    var n, m, tok := |s.frames|, ModeOf(scope, s.hit), Toks(v, off)[0];
    ToksOf(v, off);
    EventsOf(v, k, n, m);
    var t := Later(s, Opened(s, k, tok.size), First(k, n, m));
    FramesFacts(s, k, tok.size);
    RunItems(t, k + 1, v.items, off + 1, scope, json);
    assert |t.frames| == n + 1 && ModeOf(scope, t.hit) == m;
    assert Reaches(Settle(t), k + 1, ItemToks(v.items, off + 1), scope, json,
                   Later(t, Done(t.frames), ItemEvents(v.items, k + 1, n + 1, m)));
    RunContainer(s, k, tok, ItemToks(v.items, off + 1), ItemEvents(v.items, k + 1, n + 1, m), scope, json);
  }

  lemma {:induction false} RunObject(s: State, k: nat, v: Value, off: nat, scope: Scope, json: string)
    requires Steady(s, scope) && v.Obj?
    ensures Reaches(s, k, Toks(v, off), scope, json,
            Later(s, Counted(s.frames), Events(v, k, |s.frames|, ModeOf(scope, s.hit))))
    decreases v, 0
  {
    hide Reaches, Settle, Toks, First, Counted, Opened, Done, Events, MemberToks, MemberEvents, Later, Expects, ModeOf;
    var n, m, tok := |s.frames|, ModeOf(scope, s.hit), Toks(v, off)[0];
    ToksOf(v, off);
    EventsOf(v, k, n, m);
    var t := Later(s, Opened(s, k, tok.size), First(k, n, m));
    FramesFacts(s, k, tok.size);
    RunMembers(t, k + 1, v.members, off + 1, scope, json);
    assert |t.frames| == n + 1 && ModeOf(scope, t.hit) == m;
    assert Reaches(Settle(t), k + 1, MemberToks(v.members, off + 1), scope, json,
                   Later(t, Done(t.frames), MemberEvents(v.members, k + 1, n + 1, m)));
    RunContainer(s, k, tok, MemberToks(v.members, off + 1), MemberEvents(v.members, k + 1, n + 1, m), scope, json);
  }

  lemma {:induction false} RunValue(s: State, k: nat, v: Value, off: nat, scope: Scope, json: string)
    requires Steady(s, scope)
    ensures Reaches(s, k, Toks(v, off), scope, json,
            Later(s, Counted(s.frames), Events(v, k, |s.frames|, ModeOf(scope, s.hit))))
    decreases v, 1
  {
    match v
    case Arr(_, _) => RunArray(s, k, v, off, scope, json);
    case Obj(_, _) => RunObject(s, k, v, off, scope, json);
    case _ =>
      hide Reaches, Toks, First, Counted, Events, Later;
      ToksOf(v, off);
      EventsOf(v, k, |s.frames|, ModeOf(scope, s.hit));
      RunLeaf(s, k, Toks(v, off)[0], scope, json);
  }

  lemma CountedExpects(fs: seq<Frame>, n: nat)
    requires n > 0 && Expects(fs, n)
    ensures Expects(Counted(fs), n - 1) && |Counted(fs)| == |fs| && Done(Counted(fs)) == Done(fs)
  {
  }

  lemma Settled(s: State, n: nat)
    requires Expects(s.frames, n)
    ensures if n > 0 then Settle(s) == s else Later(s, Done(s.frames), []) == s
  {
    if n == 0 {
      assert Done(s.frames) == s.frames && s.trace + [] == s.trace;
    }
  }

  // Two stretches of tokens, one after the other.
  lemma RunBoth(s: State, t: State, k: nat, a: seq<Tok>, b: seq<Tok>, fs: seq<Frame>, ea: seq<Event>, eb: seq<Event>,
                scope: Scope, json: string)
    requires t == Later(s, t.frames, ea)
    requires Reaches(s, k, a, scope, json, t)
    requires Reaches(Settle(t), k + |a|, b, scope, json, Later(t, fs, eb))
    ensures Reaches(s, k, a + b, scope, json, Later(s, fs, ea + eb))
  {
    hide Run, Settle, Later;
    RunAppend(s, k, a, b, scope, json);
    LaterStill(s, t.frames, ea, fs, eb);
  }

  lemma ItemsCons(es: seq<Item>, k: nat, off: nat, lvl: nat, m: Mode)
    requires es != []
    ensures ItemToks(es, off) == Toks(es[0].val, off + |es[0].pre|) + ItemToks(es[1..], off + |PrintItem(es[0])| + 1)
    ensures ItemEvents(es, k, lvl, m)
            == Events(es[0].val, k, lvl, m) + ItemEvents(es[1..], k + Count(es[0].val), lvl, m)
  {
    hide Toks, Events, PrintItem, Count;
  }

  // Containers that are complete before they start.
  lemma RunNothing(s: State, k: nat, scope: Scope, json: string)
    requires Expects(s.frames, 0)
    ensures Reaches(Settle(s), k, [], scope, json, Later(s, Done(s.frames), []))
  {
    Settled(s, 0);
    hide Settle;
  }

  lemma {:induction false} RunItems(s: State, k: nat, es: seq<Item>, off: nat, scope: Scope, json: string)
    requires Steady(s, scope) && Expects(s.frames, |es|)
    ensures Reaches(Settle(s), k, ItemToks(es, off), scope, json,
                    Later(s, Done(s.frames), ItemEvents(es, k, |s.frames|, ModeOf(scope, s.hit))))
    decreases es, 1
  {
    if es == [] {
      RunNothing(s, k, scope, json);
    } else {
      Settled(s, |es|);
      RunMoreItems(s, k, es, off, scope, json);
    }
    hide Settle, Reaches, Done, Later, Expects;
  }

  lemma {:induction false} RunMoreItems(s: State, k: nat, es: seq<Item>, off: nat, scope: Scope, json: string)
    requires es != [] && Steady(s, scope) && Expects(s.frames, |es|)
    ensures Reaches(s, k, ItemToks(es, off), scope, json,
                    Later(s, Done(s.frames), ItemEvents(es, k, |s.frames|, ModeOf(scope, s.hit))))
    decreases es, 0
  {
    hide Reaches, Settle, Toks, PrintItem, Events, ItemToks, ItemEvents, Later, Counted, Done, Expects, Count, ModeOf;
    var n, m, v := |s.frames|, ModeOf(scope, s.hit), es[0].val;
    var p, q := off + |es[0].pre|, off + |PrintItem(es[0])| + 1;
    var ev := Events(v, k, n, m);
    RunValue(s, k, v, p, scope, json);
    TokCount(v, p);
    CountedExpects(s.frames, |es|);
    var t := Later(s, Counted(s.frames), ev);
    RunItems(t, k + Count(v), es[1..], q, scope, json);
    assert |t.frames| == n && ModeOf(scope, t.hit) == m && Done(t.frames) == Done(s.frames);
    assert Reaches(Settle(t), k + Count(v), ItemToks(es[1..], q), scope, json,
                   Later(t, Done(s.frames), ItemEvents(es[1..], k + Count(v), n, m)));
    ItemsCons(es, k, off, n, m);
    RunBoth(s, t, k, Toks(v, p), ItemToks(es[1..], q), Done(s.frames), ev, ItemEvents(es[1..], k + Count(v), n, m),
            scope, json);
  }

  // What comes after the first key.
  function RestToks(ms: seq<Member>, off: nat): seq<Tok>
    requires ms != []
  {
    Toks(ms[0].val, off + HeadLen(ms[0])) + MemberToks(ms[1..], off + |PrintMember(ms[0])| + 1)
  }

  function RestEvents(ms: seq<Member>, k: nat, lvl: nat, m: Mode): seq<Event>
    requires ms != []
  {
    Events(ms[0].val, k, lvl, m) + MemberEvents(ms[1..], k + Count(ms[0].val), lvl, m)
  }

  lemma MembersCons(ms: seq<Member>, k: nat, off: nat, lvl: nat, m: Mode)
    requires ms != []
    ensures MemberToks(ms, off) == [KeyTok(ms[0], off)] + RestToks(ms, off)
    ensures MemberEvents(ms, k, lvl, m) == First(k, lvl, m) + RestEvents(ms, k + 1, lvl, m)
  {
    hide Toks, PrintMember, KeyTok, Events;
    AssocEvents(First(k, lvl, m), Events(ms[0].val, k + 1, lvl, m),
      MemberEvents(ms[1..], k + 1 + Count(ms[0].val), lvl, m));
  }

  lemma {:induction false} RunMembers(s: State, k: nat, ms: seq<Member>, off: nat, scope: Scope, json: string)
    requires Steady(s, scope) && Expects(s.frames, |ms|)
    ensures Reaches(Settle(s), k, MemberToks(ms, off), scope, json,
                    Later(s, Done(s.frames), MemberEvents(ms, k, |s.frames|, ModeOf(scope, s.hit))))
    decreases ms, 2
  {
    if ms == [] {
      RunNothing(s, k, scope, json);
    } else {
      Settled(s, |ms|);
      RunMoreMembers(s, k, ms, off, scope, json);
    }
    hide Settle, Reaches, Done, Later, Expects;
  }

  lemma {:induction false} RunRest(s: State, k: nat, ms: seq<Member>, off: nat, scope: Scope, json: string)
    requires ms != [] && Steady(s, scope) && Expects(s.frames, |ms|)
    ensures Reaches(s, k, RestToks(ms, off), scope, json,
                    Later(s, Done(s.frames), RestEvents(ms, k, |s.frames|, ModeOf(scope, s.hit))))
    decreases ms, 0
  {
    hide Reaches, Settle, Toks, PrintMember, Events, MemberToks, MemberEvents, Later, Counted, Done, Expects, Count,
      HeadLen, ModeOf;
    var n, m, v := |s.frames|, ModeOf(scope, s.hit), ms[0].val;
    var p, q := off + HeadLen(ms[0]), off + |PrintMember(ms[0])| + 1;
    var ev, more := Events(v, k, n, m), MemberEvents(ms[1..], k + Count(v), n, m);
    RunValue(s, k, v, p, scope, json);
    TokCount(v, p);
    CountedExpects(s.frames, |ms|);
    var t := Later(s, Counted(s.frames), ev);
    RunMembers(t, k + Count(v), ms[1..], q, scope, json);
    assert |t.frames| == n && ModeOf(scope, t.hit) == m && Done(t.frames) == Done(s.frames);
    assert Reaches(Settle(t), k + Count(v), MemberToks(ms[1..], q), scope, json, Later(t, Done(s.frames), more));
    RunBoth(s, t, k, Toks(v, p), MemberToks(ms[1..], q), Done(s.frames), ev, more, scope, json);
  }

  lemma {:induction false} RunMoreMembers(s: State, k: nat, ms: seq<Member>, off: nat, scope: Scope, json: string)
    requires ms != [] && Steady(s, scope) && Expects(s.frames, |ms|)
    ensures Reaches(s, k, MemberToks(ms, off), scope, json,
                    Later(s, Done(s.frames), MemberEvents(ms, k, |s.frames|, ModeOf(scope, s.hit))))
    decreases ms, 1
  {
    assert s.frames != [] && s.frames[|s.frames| - 1].rem != 0;
    hide Reaches, Settle, MemberToks, MemberEvents, RestToks, RestEvents, Later, Done, Expects, First, ModeOf;
    var n, m := |s.frames|, ModeOf(scope, s.hit);
    var u := Later(s, s.frames, First(k, n, m));
    RunRest(u, k + 1, ms, off, scope, json);
    assert u.frames == s.frames && ModeOf(scope, u.hit) == m;
    MembersCons(ms, k, off, n, m);
    LaterStill(s, s.frames, First(k, n, m), Done(s.frames), RestEvents(ms, k + 1, n, m));
    RunKey(s, k, KeyTok(ms[0], off), RestToks(ms, off), scope, json,
      Later(u, Done(s.frames), RestEvents(ms, k + 1, n, m)));
  }

  lemma RunKey(s: State, k: nat, key: Tok, rest: seq<Tok>, scope: Scope, json: string, t: State)
    requires key.IsId() && Steady(s, scope) && s.frames != [] && s.frames[|s.frames| - 1].rem != 0
    requires Reaches(Later(s, s.frames, First(k, |s.frames|, ModeOf(scope, s.hit))), k + 1, rest, scope, json, t)
    ensures Reaches(s, k, [key] + rest, scope, json, t)
  {
    hide Run, Step, Later, First, TextOf;
    RunCons(s, k, key, rest, scope, json);
    StepOfKey(s, k, key, scope, TextOf(json, key));
  }

  // Every token of a document is called back at the depth it is nested, and every container once when
  // it ends, in the order of the text.
  lemma WalkFindsTree(root: Value, off: nat, json: string)
    ensures Run(State([], false, []), 0, Toks(root, off), Everything, json) == State([], false, Events(root, 0, 0, All))
  {
    RunValue(State([], false, []), 0, root, off, Everything, json);
    hide Run, Events, Toks;
    assert [] + Events(root, 0, 0, All) == Events(root, 0, 0, All);
  }

  // ----- The walk inside one level 1 object -------------------------------------------------------

  // The keys of members printed at off are where their tokens say.
  predicate KeysAt(ms: seq<Member>, off: nat, json: string)
    decreases ms
  {
    ms == [] || (TextOf(json, KeyTok(ms[0], off)) == ms[0].key && KeysAt(ms[1..], off + |PrintMember(ms[0])| + 1, json))
  }

  predicate IsBox(v: Value) {
    v.Arr? || v.Obj?
  }

  // The callbacks made: below a member that has the id, or comes after it with only values that are
  // not containers in between.
  function TopEvents(ms: seq<Member>, k: nat, hit: bool, id: string): seq<Event>
    decreases ms
  {
    if ms == [] then []
    else
      var hit1 := hit || ms[0].key == id;
      var v := ms[0].val;
      Events(v, k + 1, 1, if hit1 then Second else Quiet) + TopEvents(ms[1..], k + 1 + Count(v), hit1 && !IsBox(v), id)
  }

  // From the first value on.
  function TopRest(ms: seq<Member>, k: nat, hit: bool, id: string): seq<Event>
    requires ms != []
  {
    Events(ms[0].val, k, 1, ModeOf(Under(id), hit))
    + TopEvents(ms[1..], k + Count(ms[0].val), hit && !IsBox(ms[0].val), id)
  }

  function TopHit(ms: seq<Member>, hit: bool, id: string): bool
    decreases ms
  {
    if ms == [] then hit else TopHit(ms[1..], (hit || ms[0].key == id) && !IsBox(ms[0].val), id)
  }

  lemma CloseTop(s: State, t: State, k: nat, size: nat, es: seq<Event>)
    requires |s.frames| == 1 && t.frames == Opened(s, k, size)
    ensures Settle(Later(t, Done(t.frames), es))
         == Settle(State(Counted(s.frames), false, t.trace + (es + [Close(k, 2)])))
  {
    var u := Later(t, Done(t.frames), es);
    assert u.frames[..1] == Counted(s.frames);
    assert t.trace + es + [Close(k, 2)] == t.trace + (es + [Close(k, 2)]);
  }

  lemma RunTopContainer(s: State, k: nat, tok: Tok, toks: seq<Tok>, es: seq<Event>, scope: Scope, json: string)
    requires |s.frames| == 1 && tok.IsContainer()
    requires var t := Later(s, Opened(s, k, tok.size), First(k, 1, ModeOf(scope, s.hit)));
             Reaches(Settle(t), k + 1, toks, scope, json, Later(t, Done(t.frames), es))
    ensures var all := First(k, 1, ModeOf(scope, s.hit)) + (es + [Close(k, 2)]);
            Reaches(s, k, [tok] + toks, scope, json, State(Counted(s.frames), false, s.trace + all))
  {
    var f, c := First(k, 1, ModeOf(scope, s.hit)), es + [Close(k, 2)];
    var t := Later(s, Opened(s, k, tok.size), f);
    AssocEvents(s.trace, f, c);
    hide Run, Settle, Step, First, Opened, Counted, Done, TextOf;
    StepOfValue(s, k, tok, scope, TextOf(json, tok));
    RunCons(s, k, tok, toks, scope, json);
    CloseTop(s, t, k, tok.size, es);
  }

  lemma RunTopBox(s: State, k: nat, v: Value, off: nat, scope: Scope, json: string)
    requires |s.frames| == 1 && IsBox(v)
    ensures Reaches(s, k, Toks(v, off), scope, json,
                    State(Counted(s.frames), false, s.trace + Events(v, k, 1, ModeOf(scope, s.hit))))
  {
    hide Reaches, Settle, Toks, First, Counted, Opened, Done, Events, ItemToks, ItemEvents, MemberToks, MemberEvents,
      Later, Expects, ModeOf;
    var m, tok := ModeOf(scope, s.hit), Toks(v, off)[0];
    ToksOf(v, off);
    EventsOf(v, k, 1, m);
    var t := Later(s, Opened(s, k, tok.size), First(k, 1, m));
    FramesFacts(s, k, tok.size);
    if v.Arr? {
      RunItems(t, k + 1, v.items, off + 1, scope, json);
      assert |t.frames| == 2 && ModeOf(scope, t.hit) == m;
      RunTopContainer(s, k, tok, ItemToks(v.items, off + 1), ItemEvents(v.items, k + 1, 2, m), scope, json);
    } else {
      RunMembers(t, k + 1, v.members, off + 1, scope, json);
      assert |t.frames| == 2 && ModeOf(scope, t.hit) == m;
      RunTopContainer(s, k, tok, MemberToks(v.members, off + 1), MemberEvents(v.members, k + 1, 2, m), scope, json);
    }
  }

  lemma RunTopValue(s: State, k: nat, v: Value, off: nat, scope: Scope, json: string)
    requires |s.frames| == 1
    ensures Reaches(s, k, Toks(v, off), scope, json,
                    State(Counted(s.frames), s.hit && !IsBox(v), s.trace + Events(v, k, 1, ModeOf(scope, s.hit))))
  {
    if IsBox(v) {
      RunTopBox(s, k, v, off, scope, json);
    } else {
      hide Reaches, Toks, First, Counted, Events;
      ToksOf(v, off);
      EventsOf(v, k, 1, ModeOf(scope, s.hit));
      RunLeaf(s, k, Toks(v, off)[0], scope, json);
    }
  }

  lemma StepOfTopKey(s: State, k: nat, tok: Tok, id: string, text: string)
    requires tok.IsId() && |s.frames| == 1 && s.frames[0].rem != 0
    ensures Step(s, k, tok, Under(id), text) == State(s.frames, s.hit || text == id, s.trace)
  {
  }

  lemma {:induction false} RunTop(s: State, k: nat, ms: seq<Member>, off: nat, id: string, json: string)
    requires |s.frames| == 1 && Expects(s.frames, |ms|) && KeysAt(ms, off, json)
    ensures Reaches(Settle(s), k, MemberToks(ms, off), Under(id), json,
                    State(Done(s.frames), TopHit(ms, s.hit, id), s.trace + TopEvents(ms, k, s.hit, id)))
    decreases ms, 2
  {
    if ms == [] {
      RunNothing(s, k, Under(id), json);
    } else {
      Settled(s, |ms|);
      RunTopMore(s, k, ms, off, id, json);
    }
    hide Settle, Reaches, Done, Expects;
  }

  lemma JoinRuns(s: State, t: State, k: nat, a: seq<Tok>, b: seq<Tok>, r: State, scope: Scope, json: string)
    requires Reaches(s, k, a, scope, json, t) && Reaches(Settle(t), k + |a|, b, scope, json, r)
    ensures Reaches(s, k, a + b, scope, json, r)
  {
    hide Run, Settle;
    RunAppend(s, k, a, b, scope, json);
  }

  // The first member's value, then the other members.
  lemma {:induction false} RunTopRest(s: State, k: nat, ms: seq<Member>, off: nat, id: string, json: string)
    requires ms != [] && |s.frames| == 1 && Expects(s.frames, |ms|)
    requires KeysAt(ms[1..], off + |PrintMember(ms[0])| + 1, json)
    ensures var v := ms[0].val;
            Reaches(s, k, RestToks(ms, off), Under(id), json,
                    State(Done(s.frames), TopHit(ms[1..], s.hit && !IsBox(v), id), s.trace + TopRest(ms, k, s.hit, id)))
    decreases ms, 0
  {
    hide Reaches, Settle, Toks, MemberToks, PrintMember, HeadLen, Events, Counted, Done, Expects, KeysAt, TopEvents,
      TopHit, ModeOf, Count;
    var v, p, q := ms[0].val, off + HeadLen(ms[0]), off + |PrintMember(ms[0])| + 1;
    var hit, ev := s.hit && !IsBox(v), Events(v, k, 1, ModeOf(Under(id), s.hit));
    var t := State(Counted(s.frames), hit, s.trace + ev);
    RunTopValue(s, k, v, p, Under(id), json);
    TokCount(v, p);
    CountedExpects(s.frames, |ms|);
    RunTop(t, k + Count(v), ms[1..], q, id, json);
    AssocEvents(s.trace, ev, TopEvents(ms[1..], k + Count(v), hit, id));
    JoinRuns(s, t, k, Toks(v, p), MemberToks(ms[1..], q),
             State(Done(s.frames), TopHit(ms[1..], hit, id), t.trace + TopEvents(ms[1..], k + Count(v), hit, id)),
                   Under(id), json);
  }

  lemma RunTopKey(s: State, k: nat, key: Tok, rest: seq<Tok>, id: string, json: string, t: State)
    requires key.IsId() && |s.frames| == 1 && s.frames[0].rem != 0
    requires Reaches(State(s.frames, s.hit || TextOf(json, key) == id, s.trace), k + 1, rest, Under(id), json, t)
    ensures Reaches(s, k, [key] + rest, Under(id), json, t)
  {
    hide Run, Step, TextOf;
    RunCons(s, k, key, rest, Under(id), json);
    StepOfTopKey(s, k, key, id, TextOf(json, key));
  }

  // The first member, its key first, then the others.
  lemma {:induction false} RunTopMore(s: State, k: nat, ms: seq<Member>, off: nat, id: string, json: string)
    requires ms != [] && |s.frames| == 1 && Expects(s.frames, |ms|) && KeysAt(ms, off, json)
    ensures Reaches(s, k, MemberToks(ms, off), Under(id), json,
                    State(Done(s.frames), TopHit(ms, s.hit, id), s.trace + TopEvents(ms, k, s.hit, id)))
    decreases ms, 1
  {
    var key, hit1 := KeyTok(ms[0], off), s.hit || ms[0].key == id;
    var u := State(s.frames, hit1, s.trace);
    TopCons(ms, k, s.hit, id);
    hide Reaches, MemberToks, RestToks, Done, TextOf, TopEvents, TopRest, TopHit, Expects;
    RunTopRest(u, k + 1, ms, off, id, json);
    MembersCons(ms, k, off, 1, Quiet);
    RunTopKey(s, k, key, RestToks(ms, off), id, json, State(Done(s.frames), TopHit(ms, s.hit, id),
              s.trace + TopEvents(ms, k, s.hit, id)));
  }

  lemma TopCons(ms: seq<Member>, k: nat, hit: bool, id: string)
    requires ms != []
    ensures var v, hit1 := ms[0].val, hit || ms[0].key == id;
            && TopEvents(ms, k, hit, id) == TopRest(ms, k + 1, hit1, id)
            && TopHit(ms, hit, id) == TopHit(ms[1..], hit1 && !IsBox(v), id)
  {
    hide Events, Count;
  }

  // With an id, only what is inside the level 1 object found for it is called back.
  lemma WalkFindsInside(ms: seq<Member>, ws: string, off: nat, id: string, json: string)
    requires KeysAt(ms, off + 1, json)
    ensures Run(State([], false, []), 0, Toks(Obj(ms, ws), off), Under(id), json)
         == State([], false, TopEvents(ms, 1, false, id) + [Close(0, 1)])
  {
    var root := Obj(ms, ws);
    var s := State([], false, []);
    var tok := Toks(root, off)[0];
    ToksOf(root, off);
    StepOfValue(s, 0, tok, Under(id), TextOf(json, tok));
    var t := Later(s, Opened(s, 0, tok.size), First(0, 0, Quiet));
    assert t == State([Frame(|ms|, 0)], false, []);
    hide Run, Step, Toks, MemberToks, TopEvents, TextOf, First, Opened;
    RunCons(s, 0, tok, MemberToks(ms, off + 1), Under(id), json);
    RunTop(t, 1, ms, off + 1, id, json);
    var es := TopEvents(ms, 1, false, id);
    assert Done(t.frames) == [Frame(0, 0)];
    assert [] + es == es;
    SettleLast(State([Frame(0, 0)], TopHit(ms, false, id), es));
  }

  lemma SettleLast(s: State)
    requires s.frames == [Frame(0, 0)]
    ensures Settle(s) == State([], false, s.trace + [Close(0, 1)])
  {
    assert s.frames[..0] == [];
  }

  // ----- The stack is deep enough -----------------------------------------------------------------

  // How deep the stack is when a token has been put on it.
  function Pushed(s: State, tok: Tok): nat {
    |s.frames| + if tok.IsContainer() then 1 else 0
  }

  predicate Closes(es: seq<Event>, n: nat) {
    exists i | 0 <= i < |es| :: es[i].Close? && es[i].lvl == n
  }

  lemma {:induction false} SettleCloses(s: State, n: nat)
    requires n >= 1 && (Closes(s.trace, n) || |s.frames| >= n > |Settle(s).frames|)
    ensures Closes(Settle(s).trace, n)
    decreases |s.frames|
  {
    var m := |s.frames|;
    if m > 0 && s.frames[m - 1].rem == 0 {
      var t := State(s.frames[..m - 1], s.hit && m - 1 >= 2, s.trace + [Close(s.frames[m - 1].owner, m)]);
      if Closes(s.trace, n) {
        var i :| 0 <= i < |s.trace| && s.trace[i].Close? && s.trace[i].lvl == n;
        assert t.trace[i] == s.trace[i];
      } else if m == n {
        assert t.trace[|s.trace|] == Close(s.frames[m - 1].owner, n);
      }
      SettleCloses(t, n);
    }
  }

  lemma StepCloses(s: State, k: nat, tok: Tok, scope: Scope, text: string, n: nat)
    requires n >= 1 && (Closes(s.trace, n) || Pushed(s, tok) >= n > |Step(s, k, tok, scope, text).frames|)
    ensures Closes(Step(s, k, tok, scope, text).trace, n)
  {
    var t := Taken(s, k, tok, scope, text);
    assert |t.frames| == Pushed(s, tok);
    if Closes(s.trace, n) {
      var i :| 0 <= i < |s.trace| && s.trace[i].Close? && s.trace[i].lvl == n;
      assert t.trace[i] == s.trace[i];
    }
    SettleCloses(t, n);
  }

  lemma {:induction false} RunCloses(s: State, k: nat, toks: seq<Tok>, scope: Scope, json: string, n: nat)
    requires n >= 1 && (Closes(s.trace, n) || |s.frames| >= n > |Run(s, k, toks, scope, json).frames|)
    ensures Closes(Run(s, k, toks, scope, json).trace, n)
    decreases |toks|
  {
    if toks != [] {
      var t := Step(s, k, toks[0], scope, TextOf(json, toks[0]));
      if Closes(s.trace, n) || |t.frames| < n {
        StepCloses(s, k, toks[0], scope, TextOf(json, toks[0]), n);
      }
      hide Step, TextOf, Closes;
      RunCloses(t, k + 1, toks[1..], scope, json, n);
    }
  }

  predicate Shallow(es: seq<Event>, n: nat) {
    forall i | 0 <= i < |es| :: es[i].Close? ==> es[i].lvl <= n
  }

  lemma StackIsDeepEnough(s: State, k: nat, toks: seq<Tok>, scope: Scope, json: string, depth: nat)
    requires toks != [] && var r := Run(s, k, toks, scope, json); r.frames == [] && Shallow(r.trace, depth)
    ensures Pushed(s, toks[0]) <= depth
  {
    var n, tok := Pushed(s, toks[0]), toks[0];
    if n > 0 {
      var t := Step(s, k, tok, scope, TextOf(json, tok));
      if |t.frames| < n {
        StepCloses(s, k, tok, scope, TextOf(json, tok), n);
      }
      hide Step, TextOf;
      RunCloses(t, k + 1, toks[1..], scope, json, n);
      assert Closes(Run(s, k, toks, scope, json).trace, n);
    }
  }

  lemma {:induction false} EventsAreShallow(v: Value, k: nat, lvl: nat, m: Mode)
    ensures Shallow(Events(v, k, lvl, m), lvl + Depth(v))
    decreases v
  {
    match v
    case Arr(items, _) => ItemsAreShallow(items, k + 1, lvl + 1, m);
    case Obj(members, _) => MembersAreShallow(members, k + 1, lvl + 1, m);
    case _ =>
  }

  lemma {:induction false} ItemsAreShallow(es: seq<Item>, k: nat, lvl: nat, m: Mode)
    ensures Shallow(ItemEvents(es, k, lvl, m), lvl + ItemDepth(es))
    decreases es
  {
    if es != [] {
      EventsAreShallow(es[0].val, k, lvl, m);
      ItemsAreShallow(es[1..], k + Count(es[0].val), lvl, m);
    }
  }

  lemma {:induction false} MembersAreShallow(ms: seq<Member>, k: nat, lvl: nat, m: Mode)
    ensures Shallow(MemberEvents(ms, k, lvl, m), lvl + MemberDepth(ms))
    decreases ms
  {
    if ms != [] {
      EventsAreShallow(ms[0].val, k + 1, lvl, m);
      MembersAreShallow(ms[1..], k + 1 + Count(ms[0].val), lvl, m);
    }
  }

  lemma {:induction false} TopIsShallow(ms: seq<Member>, k: nat, hit: bool, id: string)
    ensures Shallow(TopEvents(ms, k, hit, id), 1 + MemberDepth(ms))
    decreases ms
  {
    if ms != [] {
      var hit1 := hit || ms[0].key == id;
      EventsAreShallow(ms[0].val, k + 1, 1, if hit1 then Second else Quiet);
      TopIsShallow(ms[1..], k + 1 + Count(ms[0].val), hit1 && !IsBox(ms[0].val), id);
    }
  }
}
