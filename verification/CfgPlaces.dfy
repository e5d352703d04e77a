/** Between the tokens that a lookup of cfg/cfg.cpp returns and the members of a document: where a
    member's tokens are, and which member a name stands for. */
module CfgPlaces {
  import opened Wrappers
  import opened JsonText
  import opened CfgText
  import opened CfgSet
  import opened CfgDoc
  import opened CfgSpots
  import opened CfgExact
  import opened CfgCreate
  import opened CfgWalk
  import opened CfgLookup
  import opened CfgFind

  // ----- From tokens to places --------------------------------------------------------------------

  function KeyIndex(ms: seq<Member>, id: string): (r: Option<nat>)
    ensures match r
            case None => !HasKey(ms, id)
            case Some(i) => i < |ms| && ms[i].key == id
  {
    if ms == [] then None
    else if ms[0].key == id then Some(0)
    else
      var r := KeyIndex(ms[1..], id);
      assert forall i | 1 <= i < |ms| :: ms[i] == ms[1..][i - 1];
      if r.Some? then Some(r.value + 1) else None
  }

  // The number of the token of key i, the members' tokens being numbered from k.
  function KeyNo(ms: seq<Member>, k: nat, i: nat): nat
    requires i < |ms|
    decreases i
  {
    if i == 0 then k else KeyNo(ms[1..], k + 1 + Count(ms[0].val), i - 1)
  }

  lemma {:induction false} FindKeyIs(ms: seq<Member>, k: nat, id: string)
    ensures FindKey(ms, k, id) == match KeyIndex(ms, id) case None => None case Some(i) => Some(KeyNo(ms, k, i))
    decreases ms
  {
    if ms != [] && ms[0].key != id {
      FindKeyIs(ms[1..], k + 1 + Count(ms[0].val), id);
    }
  }

  // The tokens of member i, which is printed at off.
  predicate MemberTokens(toks: seq<Tok>, n: nat, m: Member, off: nat) {
    && n + 1 < |toks| && toks[n] == KeyTok(m, off)
    && TokensAt(toks, n + 1, Toks(m.val, off + HeadLen(m))) && toks[n + 1] == Toks(m.val, off + HeadLen(m))[0]
  }

  lemma {:induction false} TokenOfKey(ms: seq<Member>, k: nat, off: nat, toks: seq<Tok>, i: nat)
    requires i < |ms| && TokensAt(toks, k, MemberToks(ms, off))
    ensures MemberTokens(toks, KeyNo(ms, k, i), ms[i], off + |Lead(ms[..i])|)
    decreases i
  {
    hide Toks, MemberToks, PrintMember, HeadLen, KeyTok, TokensAt;
    TokensOfMembers(ms, k, off, toks);
    if i > 0 {
      LeadOfRest(ms, i);
      hide MemberTokens, Lead;
      TokenOfKey(ms[1..], k + 1 + Count(ms[0].val), off + |PrintMember(ms[0])| + 1, toks, i - 1);
    } else {
      assert ms[..0] == [];
    }
  }

  lemma LeadOfRest(ms: seq<Member>, i: nat)
    requires 0 < i < |ms|
    ensures |Lead(ms[..i])| == |PrintMember(ms[0])| + 1 + |Lead(ms[1..][..i - 1])|
  {
    assert ms[..i][1..] == ms[1..][..i - 1] && ms[..i][0] == ms[0];
    hide PrintMember;
  }

  function FirstNo(d: Doc, at: Place): nat
    requires Holds(d, at)
  {
    if at.Root? then 1 else KeyNo(d.root.members, 1, at.j) + 2
  }

  lemma TokensOfObject(d: Doc, at: Place)
    requires Holds(d, at)
    ensures TokensAt(Toks(d.root, |d.pre|), FirstNo(d, at), MemberToks(ObjAt(d, at).members, |LeftOf(d, at)| + 1))
  {
    hide Toks, MemberToks, TokensAt, Lead, HeadLen, KeyTok, PrintDoc, KeysAt, InnerKeysAt;
    TokensOfDoc(d);
    if at.Within? {
      hide LeftOf;
      var toks, ms, off := Toks(d.root, |d.pre|), d.root.members, |d.pre| + 1;
      TokenOfKey(ms, 1, off, toks, at.j);
      LeftLength(d, at);
      var v, p := ms[at.j].val, off + |Lead(ms[..at.j])| + HeadLen(ms[at.j]);
      ToksOf(v, p);
      TokensSplit(toks, KeyNo(ms, 1, at.j) + 1, [Toks(v, p)[0]], MemberToks(v.members, p + 1));
    }
  }

  lemma LeftLength(d: Doc, at: Place)
    requires Holds(d, at) && at.Within?
    ensures |LeftOf(d, at)| == |d.pre| + 1 + |Lead(d.root.members[..at.j])| + HeadLen(d.root.members[at.j])
  {
    BeforeLength(d, at.j);
    hide Lead, BeforeValue;
  }

  lemma BeforeLength(d: Doc, j: nat)
    requires d.root.Obj? && j < |d.root.members|
    ensures |BeforeValue(d, j)| == |d.pre| + 1 + |Lead(d.root.members[..j])| + HeadLen(d.root.members[j])
  {
    hide Lead;
  }

  const QUOTES := 2            // SLEN_2QUOTES: a string's token is what is between its quotes

  // Tokens n and n + 1 are the key and value of member i, where the cut expects them.
  predicate PointsAt(toks: seq<Tok>, n: nat, ms: seq<Member>, i: nat, left: string)
    requires i < |ms|
  {
    && n + 1 < |toks| && toks[n].start == KeyAt(left, ms, i) && toks[n].end == toks[n].start + |ms[i].key|
    && (toks[n + 1].kind == TPrim <==> ms[i].val.Prim?) && (toks[n + 1].kind == TStr <==> ms[i].val.Str?)
    && (ms[i].val.Prim? ==> (toks[n + 1].start == SpotsOf(Opening(left, ms, i), ms[i]).val &&
                             toks[n + 1].end == toks[n + 1].start + ValLen(ms, i)))
    && (ms[i].val.Str? ==> (toks[n + 1].end + QUOTES == toks[n + 1].start + ValLen(ms, i) && toks[n + 1].size == 0))
  }

  lemma TokenOfMember(d: Doc, at: Place, i: nat)
    requires Holds(d, at) && i < |ObjAt(d, at).members|
    ensures PointsAt(Toks(d.root, |d.pre|), KeyNo(ObjAt(d, at).members, FirstNo(d, at), i), ObjAt(d, at).members, i,
            LeftOf(d, at))
  {
    TokensOfObject(d, at);
    MemberHasToken(Toks(d.root, |d.pre|), FirstNo(d, at), ObjAt(d, at).members, i, LeftOf(d, at));
    hide *;
  }

  lemma MemberHasToken(toks: seq<Tok>, k: nat, ms: seq<Member>, i: nat, left: string)
    requires i < |ms| && TokensAt(toks, k, MemberToks(ms, |left| + 1))
    ensures PointsAt(toks, KeyNo(ms, k, i), ms, i, left)
  {
    hide *;
    TokenOfKey(ms, k, |left| + 1, toks, i);
    SpotsOfTokens(toks, KeyNo(ms, k, i), ms, i, left, |left| + 1 + |Lead(ms[..i])|);
  }

  lemma OpeningLength(left: string, ms: seq<Member>, i: nat)
    requires i < |ms|
    ensures |Opening(left, ms, i)| == |left| + 1 + |Lead(ms[..i])|
  {
    hide Lead;
  }

  lemma SpotsOfTokens(toks: seq<Tok>, n: nat, ms: seq<Member>, i: nat, left: string, off: nat)
    requires i < |ms| && off == |left| + 1 + |Lead(ms[..i])| && MemberTokens(toks, n, ms[i], off)
    ensures PointsAt(toks, n, ms, i, left)
  {
    OpeningLength(left, ms, i);
    KindOfValue(ms[i].val, off + HeadLen(ms[i]));
    hide Toks, TokensAt, Opening, Print;
  }

  lemma KindOfValue(v: Value, off: nat)
    ensures var tok := Toks(v, off)[0];
            && (tok.kind == TPrim <==> v.Prim?) && (tok.kind == TStr <==> v.Str?)
            && (v.Prim? ==> tok.start == off && tok.end == off + |Print(v)|)
            && (v.Str? ==> tok.end + QUOTES == tok.start + |Print(v)| && tok.size == 0)
  {
    assert v.Str? ==> |Print(v)| == |v.text| + QUOTES;
    hide ItemToks, MemberToks, Print;
  }

  lemma ValueShown(left: string, ms: seq<Member>, i: nat, right: string, tok: Tok)
    requires i < |ms| && tok.start == SpotsOf(Opening(left, ms, i), ms[i]).val && tok.end == tok.start + ValLen(ms, i)
    ensures TextOf(Around(left, ms, "", right), tok) == Print(ms[i].val)
  {
    assert ValLen(ms, i) == |Print(ms[i].val)|;
    assert var p := SpotsOf(Opening(left, ms, i), ms[i]); p.post == p.val + |Print(ms[i].val)| && p.post <= p.end;
    hide Lead, Opening, Closing, Print, Around, PrintMember, ValLen, SpotsOf;
    AroundMember(left, ms, i, right);
    AtSpots(Opening(left, ms, i), ms[i], Closing(ms, i, right));
  }

  lemma PrimIsShown(left: string, ms: seq<Member>, i: nat, right: string, toks: seq<Tok>, n: nat)
    requires i < |ms| && ms[i].val.Prim? && PointsAt(toks, n, ms, i, left)
    ensures n + 1 < |toks| && TextOf(Around(left, ms, "", right), toks[n + 1]) == ms[i].val.text
  {
    assert Print(ms[i].val) == ms[i].val.text;
    hide Print, Around, SpotsOf, Opening, KeyAt, ValLen, TextOf;
    ValueShown(left, ms, i, right, toks[n + 1]);
  }

  lemma TextOfMember(d: Doc, at: Place, i: nat)
    requires WfDoc(d) && Holds(d, at) && i < |ObjAt(d, at).members| && ObjAt(d, at).members[i].val.Prim?
    ensures var ms, toks, n := ObjAt(d, at).members, Toks(d.root, |d.pre|),
            KeyNo(ObjAt(d, at).members, FirstNo(d, at), i);
            n + 1 < |toks| && TextOf(PrintDoc(d), toks[n + 1]) == ms[i].val.text
  {
    hide *;
    TokenOfMember(d, at, i);
    KeyIsInText(d, at, i);
    PrimIsShown(LeftOf(d, at), ObjAt(d, at).members, i, RightOf(d, at), Toks(d.root, |d.pre|),
                KeyNo(ObjAt(d, at).members, FirstNo(d, at), i));
  }

  // Where the token of a top-level value starts.
  lemma TokenOfValue(d: Doc, j: nat)
    requires d.root.Obj? && j < |d.root.members|
    ensures var toks, n := Toks(d.root, |d.pre|), KeyNo(d.root.members, 1, j);
            n + 1 < |toks| && toks[n + 1].start + 1 == FirstAt(d, j)
  {
    var ms, off := d.root.members, |d.pre| + 1;
    hide Toks, MemberToks, TokensAt, Lead, HeadLen, BeforeValue, KeyTok, PrintDoc, KeysAt, InnerKeysAt;
    TokensOfDoc(d);
    TokenOfKey(ms, 1, off, Toks(d.root, |d.pre|), j);
    BeforeLength(d, j);
    StartOfValue(ms[j].val, off + |Lead(ms[..j])| + HeadLen(ms[j]));
  }

  lemma StartOfValue(v: Value, off: nat)
    ensures Toks(v, off)[0].start == off + (if v.Str? then 1 else 0)
  {
    hide Print, ItemToks, MemberToks;
  }

  // ----- What a name stands for, and what is found for it -----------------------------------------

  // The member that a name is meant for.
  ghost function Named(ms: seq<Member>, name: Name): Option<(Place, nat)> {
    match name
    case Bad => None
    case One(id) => (match KeyIndex(ms, id) case None => None case Some(i) => Some((Root, i)))
    case Two(id1, id2) =>
      match KeyIndex(ms, id1)
      case None => None
      case Some(j) => InBox(ms, Some(j), id2)
  }

  // The member that is found: in the first container that is the value of id1 or comes after it.
  ghost function Spot(ms: seq<Member>, name: Name): Option<(Place, nat)> {
    match name
    case Bad => None
    case One(id) => (match KeyIndex(ms, id) case None => None case Some(i) => Some((Root, i)))
    case Two(id1, id2) =>
      match KeyIndex(ms, id1)
      case None => None
      case Some(j) => InBox(ms, NextBox(ms, j), id2)
  }

  // The first member from j on whose value is a container.
  function NextBox(ms: seq<Member>, j: nat): (r: Option<nat>)
    requires j <= |ms|
    ensures r.Some? ==> j <= r.value < |ms| && IsBox(ms[r.value].val)
    ensures forall k | j <= k < |ms| && (r.Some? ==> k < r.value) :: !IsBox(ms[k].val)
    decreases |ms| - j
  {
    if j == |ms| then None else if IsBox(ms[j].val) then Some(j) else NextBox(ms, j + 1)
  }

  ghost function InBox(ms: seq<Member>, box: Option<nat>, id: string): Option<(Place, nat)>
    requires box.Some? ==> box.value < |ms|
  {
    if box.None? || !ms[box.value].val.Obj? then None
    else match KeyIndex(ms[box.value].val.members, id)
      case None => None
      case Some(i) => Some((Within(box.value), i))
  }

  // The token of the key in this place, None if there is none.
  ghost function TokenIn(ms: seq<Member>, k: nat, spot: Option<(Place, nat)>): Option<nat> {
    match spot
    case None => None
    case Some((at, i)) =>
      if at.Within? && at.j < |ms| && ms[at.j].val.Obj? && i < |ms[at.j].val.members|
      then Some(KeyNo(ms[at.j].val.members, KeyNo(ms, k, at.j) + 2, i)) else None
  }

  lemma BoxesOfRest(ms: seq<Member>, j: nat)
    requires 0 < j <= |ms|
    ensures NextBox(ms, j) == (match NextBox(ms[1..], j - 1) case None => None case Some(k) => Some(k + 1))
    decreases |ms| - j
  {
    if j < |ms| {
      assert ms[1..][j - 1] == ms[j];
      BoxesOfRest(ms, j + 1);
    }
  }

  lemma TokenInRest(ms: seq<Member>, k: nat, j: nat, id: string)
    requires 0 < j <= |ms|
    ensures TokenIn(ms, k, InBox(ms, NextBox(ms, j), id))
         == TokenIn(ms[1..], k + 1 + Count(ms[0].val), InBox(ms[1..], NextBox(ms[1..], j - 1), id))
  {
    BoxesOfRest(ms, j);
    var r := NextBox(ms[1..], j - 1);
    if r.Some? {
      assert ms[1..][r.value] == ms[r.value + 1];
    }
    hide NextBox, Count;
  }

  lemma TokenHere(ms: seq<Member>, k: nat, id: string)
    requires ms != [] && IsBox(ms[0].val)
    ensures TokenIn(ms, k, InBox(ms, NextBox(ms, 0), id))
            == if ms[0].val.Obj? then FindKey(ms[0].val.members, k + 2, id) else None
  {
    if ms[0].val.Obj? {
      FindKeyIs(ms[0].val.members, k + 2, id);
    }
    hide FindKey;
  }

  // After a key whose value is not a container.
  lemma {:induction false} SearchingFinds(ms: seq<Member>, k: nat, id1: string, id2: string)
    requires !HasKey(ms, id1)
    ensures Find2(ms, k, true, id1, id2) == TokenIn(ms, k, InBox(ms, NextBox(ms, 0), id2))
    decreases ms
  {
    if ms != [] {
      var v, n := ms[0].val, k + 1 + Count(ms[0].val);
      assert ms[0].key != id1;
      assert !HasKey(ms[1..], id1) by { assert forall i | 0 <= i < |ms[1..]| :: ms[1..][i] == ms[i + 1]; }
      Find2Cons(ms, k, true, id1, id2);
      hide FindKey, HasKey, Find2, Count;
      if IsBox(v) {
        TokenHere(ms, k, id2);
        NoKeyNothing(ms[1..], n, id1, id2);
      } else {
        SearchingFinds(ms[1..], n, id1, id2);
        TokenInRest(ms, k, 1, id2);
      }
    }
  }

  lemma {:induction false} Find2Is(ms: seq<Member>, k: nat, id1: string, id2: string)
    requires Unique(ms)
    ensures Find2(ms, k, false, id1, id2) == TokenIn(ms, k, Spot(ms, Two(id1, id2)))
    decreases ms
  {
    if ms != [] {
      var v, n := ms[0].val, k + 1 + Count(ms[0].val);
      UniqueRest(ms);
      Find2Cons(ms, k, false, id1, id2);
      hide FindKey, HasKey, Find2, Count, Unique;
      if ms[0].key == id1 {
        if IsBox(v) {
          TokenHere(ms, k, id2);
          NoKeyNothing(ms[1..], n, id1, id2);
        } else {
          SearchingFinds(ms[1..], n, id1, id2);
          TokenInRest(ms, k, 1, id2);
        }
      } else {
        Find2Is(ms[1..], n, id1, id2);
        if KeyIndex(ms, id1).Some? {
          TokenInRest(ms, k, KeyIndex(ms, id1).value, id2);
        }
      }
    }
  }

  // With unique keys the lookup gives the token of the member found.
  lemma LookupOfSpot(d: Doc, name: Name)
    requires d.root.Obj? && Unique(d.root.members)
    ensures match Spot(d.root.members, name)
            case Some((at, i)) =>
              && Holds(d, at) && i < |ObjAt(d, at).members|
              && Lookup(d.root.members, name, false) == At(KeyNo(ObjAt(d, at).members, FirstNo(d, at), i) + 1)
            case None =>
              Lookup(d.root.members, name, false)
              == if name.Two? && HasKey(d.root.members, name.id1) then OnlyFirst else Missing
  {
    var ms := d.root.members;
    hide Find2, FindKey, Unique;
    match name
    case Bad =>
    case One(id) => FindKeyIs(ms, 1, id);
    case Two(id1, id2) =>
      Find2Is(ms, 1, id1, id2);
      FindKeyIff(ms, 1, id1);
  }

  lemma {:induction false} MisledIs(ms: seq<Member>, id1: string, id2: string)
    ensures Misled(ms, id1, id2) <==>
            KeyIndex(ms, id1).Some? && !IsBox(ms[KeyIndex(ms, id1).value].val)
              && NextBoxHas(ms[KeyIndex(ms, id1).value + 1..], id2)
    decreases ms
  {
    if ms != [] && ms[0].key != id1 {
      MisledIs(ms[1..], id1, id2);
      var r := KeyIndex(ms[1..], id1);
      if r.Some? {
        assert ms[1..][r.value + 1..] == ms[r.value + 2..] && ms[1..][r.value] == ms[r.value + 1];
      }
    }
    hide NextBoxHas;
  }

  lemma {:induction false} NextBoxHasIs(ms: seq<Member>, j: nat, id: string)
    requires j <= |ms|
    ensures NextBoxHas(ms[j..], id) <==> InBox(ms, NextBox(ms, j), id).Some?
    decreases |ms| - j
  {
    if j < |ms| {
      assert ms[j..][0] == ms[j] && ms[j..][1..] == ms[j + 1..];
      if IsBox(ms[j].val) {
        if ms[j].val.Obj? { KeyIndexIff(ms[j].val.members, id); }
      } else {
        NextBoxHasIs(ms, j + 1, id);
      }
    }
    hide HasKey;
  }

  lemma KeyIndexIff(ms: seq<Member>, id: string)
    ensures KeyIndex(ms, id).Some? <==> HasKey(ms, id)
  {
    if KeyIndex(ms, id).Some? {
      assert ms[KeyIndex(ms, id).value].key == id;
    }
  }

  // That is the member meant, unless the value of the first part is no container and the next
  // container has the second part as a key.
  lemma SpotIsNamedIff(ms: seq<Member>, name: Name)
    ensures Spot(ms, name) == Named(ms, name) <==> !(name.Two? && Misled(ms, name.id1, name.id2))
  {
    if name.Two? {
      MisledIs(ms, name.id1, name.id2);
      var r := KeyIndex(ms, name.id1);
      if r.Some? {
        NextBoxHasIs(ms, r.value + 1, name.id2);
        NextBoxHasIs(ms, r.value, name.id2);
        assert !IsBox(ms[r.value].val) ==> NextBox(ms, r.value) == NextBox(ms, r.value + 1);
      }
    }
    hide Misled, NextBoxHas, KeyIndex;
  }

  // ----- Depth ------------------------------------------------------------------------------------

  lemma {:induction false} MemberDepthIs(ms: seq<Member>, n: nat)
    ensures MemberDepth(ms) <= n <==> forall i | 0 <= i < |ms| :: Depth(ms[i].val) <= n
    decreases ms
  {
    if ms != [] {
      MemberDepthIs(ms[1..], n);
      assert forall i | 1 <= i < |ms| :: ms[i] == ms[1..][i - 1];
      assert forall i | 0 <= i < |ms[1..]| :: ms[1..][i] == ms[i + 1];
      hide Depth;
    }
  }

  // No deeper than before: the object's new members are old ones, or not containers.
  ghost predicate NotDeeper(us: seq<Member>, ms: seq<Member>) {
    forall i | 0 <= i < |us| :: !IsBox(us[i].val) || exists k | 0 <= k < |ms| :: us[i].val == ms[k].val
  }

  lemma DepthOfWith(d: Doc, at: Place, us: seq<Member>, ws: string)
    requires Holds(d, at) && Depth(d.root) < 32 && NotDeeper(us, ObjAt(d, at).members)
    ensures Depth(WithObj(d, at, Obj(us, ws)).root) < 32
  {
    var ms, os := ObjAt(d, at).members, d.root.members;
    var n := MemberDepth(ms);
    MemberDepthIs(ms, n);
    MemberDepthIs(us, n);
    if at.Within? {
      MemberDepthIs(os, 30);
      MemberDepthIs(WithObj(d, at, Obj(us, ws)).root.members, 30);
      assert Depth(os[at.j].val) <= 30;
    }
  }
}
