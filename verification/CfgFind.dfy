/** _cfg_lookup_json of cfg/cfg.cpp: what it finds in a document, and when that is what is named. */
module CfgFind {
  import opened Wrappers
  import opened JsonText
  import opened CfgText
  import opened CfgWalk
  import opened CfgLookup

  // ----- Names ------------------------------------------------------------------------------------

  datatype LookupOpt = Plainly | NoDot | FirstOnly     // CFG_OPT_NONE, CFG_OPT_NO_DOT, CFG_OPT_ID1
  datatype Name = One(id: string) | Two(id1: string, id2: string) | Bad

  predicate IsSpace(c: char) {
    c == ' ' || '\t' <= c <= '\r'
  }

  function DropSpace(s: string): string {
    if s != [] && IsSpace(s[0]) then DropSpace(s[1..]) else s
  }

  function Word(s: string): string {
    if s == [] || IsSpace(s[0]) then [] else [s[0]] + Word(s[1..])
  }

  function UpTo(s: string, c: char): (n: nat)
    ensures n <= |s| && (n < |s| ==> s[n] == c) && forall i | 0 <= i < n :: s[i] != c
  {
    if s == [] || s[0] == c then 0 else 1 + UpTo(s[1..], c)
  }

  // A name with exactly one dot has two parts, the second up to white space.
  function NameOf(name: string, noDot: bool): Name {
    var n := UpTo(name, '.');
    if n == |name| || '.' in name[n + 1..] || noDot then One(name)
    else
      var id2 := Word(DropSpace(name[n + 1..]));
      if n == 0 || id2 == [] then Bad else Two(name[..n], id2)
  }

  // ----- What is found ----------------------------------------------------------------------------

  // No token, the level 1 key only, or the token of a value.
  datatype Found = Missing | OnlyFirst | At(tok: nat)

  function ValueOf(key: Option<nat>): Found {
    if key.Some? then At(key.value + 1) else Missing
  }

  function Lookup(ms: seq<Member>, name: Name, firstOnly: bool): Found {
    match name
    case Bad => Missing
    case One(id) => ValueOf(FindKey(ms, 1, id))
    case Two(id1, id2) =>
      if firstOnly then ValueOf(FindKey(ms, 1, id1))
      else if Find2(ms, 1, false, id1, id2).Some? then ValueOf(Find2(ms, 1, false, id1, id2))
      else if FindKey(ms, 1, id1).Some? then OnlyFirst
      else Missing
  }

  lemma TextOfRoot(d: Doc)
    requires d.root.Obj? && d.root.members != []
    ensures PrintDoc(d) == (d.pre + "{") + PrintMembers(d.root.members) + ("}" + d.post)
  {
    var p := PrintMembers(d.root.members);
    assert Print(d.root) == "{" + p + "}";
    hide Print, PrintMembers;
    assert d.pre + ("{" + p + "}") + d.post == (d.pre + "{") + p + ("}" + d.post);
  }

  lemma TokensOfDoc(d: Doc)
    requires d.root.Obj?
    ensures var ms, off := d.root.members, |d.pre|;
            && TokensAt(Toks(d.root, off), 1, MemberToks(ms, off + 1))
            && KeysAt(ms, off + 1, PrintDoc(d)) && InnerKeysAt(ms, off + 1, PrintDoc(d))
  {
    var ms, off, toks := d.root.members, |d.pre|, Toks(d.root, |d.pre|);
    ToksOf(d.root, off);
    assert toks[1..1 + |MemberToks(ms, off + 1)|] == MemberToks(ms, off + 1);
    if ms != [] {
      var p := PrintMembers(ms);
      TextOfRoot(d);
      assert Shows(PrintDoc(d), 0, PrintDoc(d));
      hide PrintDoc, Shows, Print, PrintMembers, KeysAt, InnerKeysAt, Toks, MemberToks;
      ShowsPart(PrintDoc(d), 0, d.pre + "{", p, "}" + d.post);
      ShownKeys(ms, off + 1, PrintDoc(d));
      ShownInnerKeys(ms, off + 1, PrintDoc(d));
    }
  }

  // The top level: the walk stops at the first key that is id, whatever the depth of the rest.
  lemma WalkForKey(d: Doc, id: string)
    requires d.root.Obj? && Depth(d.root) < 32
    ensures var json, toks := PrintDoc(d), Toks(d.root, |d.pre|);
            var r := Run(State([], false, []), 0, toks, Everything, json);
            && r.frames == [] && Shallow(r.trace, 31)
            && FirstHit(r.trace, Callback(json, toks, id, 1)) == FindKey(d.root.members, 1, id)
  {
    var json, toks, ms := PrintDoc(d), Toks(d.root, |d.pre|), d.root.members;
    var cb := Callback(json, toks, id, 1);
    EventsAreShallow(d.root, 0, 0, All);
    assert Shallow(Events(d.root, 0, 0, All), 31);
    EventsOf(d.root, 0, 0, All);
    NoHitFirst(0, 0, All, json, toks, id, 1);
    hide Events, MemberEvents, First, Callback, FirstHit, Toks, MemberToks, TokensAt, PrintDoc, Run, KeysAt,
      InnerKeysAt,
      Shallow, Depth;
    WalkFindsTree(d.root, |d.pre|, json);
    TokensOfDoc(d);
    HitInMembers(ms, 1, All, |d.pre| + 1, json, toks, id, 1);
    HitInside(First(0, 0, All), MemberEvents(ms, 1, 1, All), Close(0, 1), cb);
  }

  lemma WalkForTwo(d: Doc, id1: string, id2: string)
    requires d.root.Obj? && Depth(d.root) < 32
    ensures var json, toks := PrintDoc(d), Toks(d.root, |d.pre|);
            var r := Run(State([], false, []), 0, toks, Under(id1), json);
            && r.frames == [] && Shallow(r.trace, 31)
            && FirstHit(r.trace, Callback(json, toks, id2, 2)) == Find2(d.root.members, 1, false, id1, id2)
  {
    var json, toks, ms := PrintDoc(d), Toks(d.root, |d.pre|), d.root.members;
    var cb, es := Callback(json, toks, id2, 2), TopEvents(ms, 1, false, id1);
    TokensOfDoc(d);
    TopIsShallow(ms, 1, false, id1);
    assert d.root == Obj(ms, d.root.ws);
    assert 1 + MemberDepth(ms) <= 31;
    hide TopEvents, Callback, FirstHit, Toks, MemberToks, TokensAt, PrintDoc, Run, KeysAt, InnerKeysAt, Shallow;
    WalkFindsInside(ms, d.root.ws, |d.pre|, id1, json);
    LastClose(es, 1 + MemberDepth(ms), cb);
    HitInTop(ms, 1, false, |d.pre| + 1, json, toks, id1, id2);
  }

  lemma LastClose(es: seq<Event>, depth: nat, cb: (nat, nat) -> bool)
    requires Shallow(es, depth) && 1 <= depth <= 31
    ensures Shallow(es + [Close(0, 1)], 31) && FirstHit(es + [Close(0, 1)], cb) == FirstHit(es, cb)
  {
    FirstHitAppend(es, [Close(0, 1)], cb);
    NoHitInCloses([Close(0, 1)], cb);
  }

  // What a walk over any tokens finds, and what the lookup makes of it.
  function Hit(json: string, toks: seq<Tok>, scope: Scope, id: string, want: nat): Option<nat> {
    FirstHit(Run(State([], false, []), 0, toks, scope, json).trace, Callback(json, toks, id, want))
  }

  function Looked(json: string, toks: seq<Tok>, name: Name, firstOnly: bool): Found {
    match name
    case Bad => Missing
    case One(id) => ValueOf(Hit(json, toks, Everything, id, 1))
    case Two(id1, id2) =>
      if firstOnly then ValueOf(Hit(json, toks, Everything, id1, 1))
      else if Hit(json, toks, Under(id1), id2, 2).Some? then ValueOf(Hit(json, toks, Under(id1), id2, 2))
      else if Hit(json, toks, Everything, id1, 1).Some? then OnlyFirst
      else Missing
  }

  // The stack of 32 levels suffices for every walk a lookup makes.
  predicate Fits(json: string, toks: seq<Tok>, scope: Scope) {
    var r := Run(State([], false, []), 0, toks, scope, json); r.frames == [] && Shallow(r.trace, 31)
  }

  ghost predicate AllFit(json: string, toks: seq<Tok>) {
    Fits(json, toks, Everything) && forall id :: Fits(json, toks, Under(id))
  }

  predicate Deep(json: string, toks: seq<Tok>, scope: Scope, id: string, want: nat) {
    Overruns(State([], false, []), 0, toks, scope, json, Callback(json, toks, id, want))
  }

  // The lookup, None if one of its walks needs more than the stack.
  function Looks(json: string, toks: seq<Tok>, name: Name, firstOnly: bool): (r: Option<Found>)
    ensures r.Some? ==> r.value == Looked(json, toks, name, firstOnly)
  {
    match name
    case Bad => Some(Missing)
    case One(id) => if Deep(json, toks, Everything, id,
      1) then None else Some(ValueOf(Hit(json, toks, Everything, id, 1)))
    case Two(id1, id2) =>
      if firstOnly then
        if Deep(json, toks, Everything, id1, 1) then None else Some(ValueOf(Hit(json, toks, Everything, id1, 1)))
      else if Deep(json, toks, Under(id1), id2, 2) then None
      else if Hit(json, toks, Under(id1), id2, 2).Some? then Some(ValueOf(Hit(json, toks, Under(id1), id2, 2)))
      else if Deep(json, toks, Everything, id1, 1) then None
      else Some(if Hit(json, toks, Everything, id1, 1).Some? then OnlyFirst else Missing)
  }

  // It does not, if the stack suffices for every walk.
  lemma LooksIfFits(json: string, toks: seq<Tok>, name: Name, firstOnly: bool)
    requires AllFit(json, toks)
    ensures Looks(json, toks, name, firstOnly) == Some(Looked(json, toks, name, firstOnly))
  {
    hide Run, FirstHit, Callback, Shallow, Overruns;
    var s := State([], false, []);
    match name
    case Bad =>
    case One(id) =>
      NoOverrun(s, 0, toks, Everything, json, Callback(json, toks, id, 1));
    case Two(id1, id2) =>
      assert Fits(json, toks, Under(id1));
      NoOverrun(s, 0, toks, Everything, json, Callback(json, toks, id1, 1));
      NoOverrun(s, 0, toks, Under(id1), json, Callback(json, toks, id2, 2));
  }

  method LookupJson(json: string, toks: seq<Tok>, name: string, mode: LookupOpt) returns (found: Found, deep: bool)
    ensures match Looks(json, toks, NameOf(name, mode.NoDot?), mode.FirstOnly?)
            case None => deep
            case Some(f) => !deep && found == f
  {
    hide Run, FirstHit, Callback, Shallow, Overruns;
    var key, calls;
    match NameOf(name, mode.NoDot?)
    case Bad =>
      return Missing, false;
    case One(id) =>
      key, calls, deep := Walk(json, toks, Everything, Callback(json, toks, id, 1));
      return ValueOf(key), deep;
    case Two(id1, id2) =>
      if mode.FirstOnly? {
        key, calls, deep := Walk(json, toks, Everything, Callback(json, toks, id1, 1));
        return ValueOf(key), deep;
      }
      key, calls, deep := Walk(json, toks, Under(id1), Callback(json, toks, id2, 2));
      if deep {
        return Missing, true;
      }
      if key.None? {
        key, calls, deep := Walk(json, toks, Everything, Callback(json, toks, id1, 1));
        return if key.Some? then OnlyFirst else Missing, deep;
      }
      return ValueOf(key), false;
  }

  // On the tokens of a document it finds the keys of its objects.
  lemma LookedInDoc(d: Doc, name: Name, firstOnly: bool)
    requires d.root.Obj? && Depth(d.root) < 32
    ensures var json, toks := PrintDoc(d), Toks(d.root, |d.pre|);
            Looked(json, toks, name, firstOnly) == Lookup(d.root.members, name, firstOnly)
  {
    hide Run, FirstHit, Callback, Toks, PrintDoc, Depth, Shallow, FindKey, Find2;
    match name
    case Bad =>
    case One(id) =>
      WalkForKey(d, id);
    case Two(id1, id2) =>
      WalkForKey(d, id1);
      WalkForTwo(d, id1, id2);
  }

  lemma DocFits(d: Doc)
    requires d.root.Obj? && Depth(d.root) < 32
    ensures AllFit(PrintDoc(d), Toks(d.root, |d.pre|))
  {
    hide Run, Toks, PrintDoc, Depth, Shallow, FirstHit, Callback;
    WalkForKey(d, "");
    forall id: string ensures Fits(PrintDoc(d), Toks(d.root, |d.pre|), Under(id)) {
      WalkForTwo(d, id, "");
    }
  }

  // ----- When that is what is named ---------------------------------------------------------------

  ghost predicate Unique(ms: seq<Member>) {
    forall i, j | 0 <= i < j < |ms| :: ms[i].key != ms[j].key
  }

  predicate HasKey(ms: seq<Member>, id: string) {
    exists i | 0 <= i < |ms| :: ms[i].key == id
  }

  // The key id2 in the object that is the value of the key id1.
  function Wanted(ms: seq<Member>, k: nat, id1: string, id2: string): Option<nat>
    decreases ms
  {
    if ms == [] then None
    else if ms[0].key == id1 then (if ms[0].val.Obj? then FindKey(ms[0].val.members, k + 2, id2) else None)
    else Wanted(ms[1..], k + 1 + Count(ms[0].val), id1, id2)
  }

  // The first value that is a container is an object with this key.
  predicate NextBoxHas(ms: seq<Member>, id: string)
    decreases ms
  {
    ms != [] &&
    if IsBox(ms[0].val) then ms[0].val.Obj? && HasKey(ms[0].val.members, id) else NextBoxHas(ms[1..], id)
  }

  // The value of id1 is not a container, and the next one after it that is has id2 as a key.
  predicate Misled(ms: seq<Member>, id1: string, id2: string)
    decreases ms
  {
    ms != [] &&
    if ms[0].key == id1 then !IsBox(ms[0].val) && NextBoxHas(ms[1..], id2) else Misled(ms[1..], id1, id2)
  }

  lemma {:induction false} FindKeyIff(ms: seq<Member>, k: nat, id: string)
    ensures FindKey(ms, k, id).Some? <==> HasKey(ms, id)
    decreases ms
  {
    if ms != [] {
      FindKeyIff(ms[1..], k + 1 + Count(ms[0].val), id);
      if HasKey(ms, id) && ms[0].key != id {
        var i :| 0 <= i < |ms| && ms[i].key == id;
        assert ms[1..][i - 1].key == id;
      }
      if HasKey(ms[1..], id) {
        var i :| 0 <= i < |ms[1..]| && ms[1..][i].key == id;
        assert ms[i + 1].key == id;
      }
    }
  }

  lemma {:induction false} NoKeyNothing(ms: seq<Member>, k: nat, id1: string, id2: string)
    requires !HasKey(ms, id1)
    ensures Find2(ms, k, false, id1, id2) == None
    decreases ms
  {
    if ms != [] {
      assert ms[0].key != id1;
      assert forall i | 0 <= i < |ms[1..]| :: ms[1..][i] == ms[i + 1];
      hide FindKey;
      NoKeyNothing(ms[1..], k + 1 + Count(ms[0].val), id1, id2);
    }
  }

  // After a key whose value is not a container.
  lemma {:induction false} StillSearching(ms: seq<Member>, k: nat, id1: string, id2: string)
    requires !HasKey(ms, id1)
    ensures Find2(ms, k, true, id1, id2).Some? <==> NextBoxHas(ms, id2)
    decreases ms
  {
    if ms != [] {
      var v := ms[0].val;
      assert forall i | 0 <= i < |ms[1..]| :: ms[1..][i] == ms[i + 1];
      assert !HasKey(ms[1..], id1);
      if v.Obj? { FindKeyIff(v.members, k + 2, id2); }
      hide FindKey, HasKey;
      if IsBox(v) {
        NoKeyNothing(ms[1..], k + 1 + Count(v), id1, id2);
      } else {
        StillSearching(ms[1..], k + 1 + Count(v), id1, id2);
      }
    }
  }

  lemma UniqueRest(ms: seq<Member>)
    requires ms != [] && Unique(ms)
    ensures Unique(ms[1..]) && !HasKey(ms[1..], ms[0].key)
  {
    assert forall i | 0 <= i < |ms[1..]| :: ms[1..][i] == ms[i + 1];
  }

  // With unique keys id1.id2 is found in the object named id1 if it is there, and nothing is found
  // otherwise -- unless the value of id1 is no container and the next container has the key id2.
  lemma {:induction false} TwoLevelIff(ms: seq<Member>, k: nat, id1: string, id2: string)
    requires Unique(ms)
    ensures Find2(ms, k, false, id1, id2) == Wanted(ms, k, id1, id2) <==> !Misled(ms, id1, id2)
    decreases ms
  {
    if ms != [] {
      var v, n := ms[0].val, k + 1 + Count(ms[0].val);
      UniqueRest(ms);
      hide FindKey, HasKey, Unique;
      if ms[0].key != id1 {
        TwoLevelIff(ms[1..], n, id1, id2);
      } else if IsBox(v) {
        NoKeyNothing(ms[1..], n, id1, id2);
      } else {
        StillSearching(ms[1..], n, id1, id2);
      }
    }
  }

  // A text in which a.x is found although a is a number.
  lemma FoundElsewhere()
    ensures var ms := [Member("", "a", "", "", Prim("1"), ""),
            Member("", "b", "", "", Obj([Member("", "x", "", "", Prim("2"), "")], ""), "")];
            Unique(ms) && Lookup(ms, NameOf("a.x", false), false) == At(6)
  {
    var x := Member("", "x", "", "", Prim("2"), "");
    var ms := [Member("", "a", "", "", Prim("1"), ""), Member("", "b", "", "", Obj([x], ""), "")];
    assert UpTo("a.x", '.') == 1 by { assert "a.x"[1..] == ".x"; }
    assert "a.x"[2..] == "x" && "a.x"[..1] == "a";
    assert DropSpace("x") == "x" && Word("x") == "x" by { assert "x"[1..] == ""; }
    assert NameOf("a.x", false) == Two("a", "x");
    assert ms[1..] == [ms[1]];
    assert FindKey([x], 5, "x") == Some(5);
    assert Find2([ms[1]], 3, true, "a", "x") == Some(5);
    assert Count(Prim("1")) == 1;
    assert Find2(ms, 1, false, "a", "x") == Some(5);
  }
}
