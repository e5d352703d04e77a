/** Exactly when a text that _cfg_cut and _cfg_ins of cfg/cfg.cpp leave reads as it should. */
module CfgReadsIff {
  import opened Wrappers
  import opened JsonText
  import opened JsonLex
  import opened CfgText
  import opened CfgSet
  import opened CfgDoc
  import opened CfgSpots
  import opened CfgExact
  import opened CfgCreate
  import opened CfgRemove
  import opened CfgWalk
  import opened CfgLookup
  import opened CfgFind
  import opened CfgPlaces
  import opened Jsmn
  import opened JsmnTree
  import opened JsmnRead
  import opened JsmnDoc
  import opened CfgReads
  import opened CfgLeft

  // ----- What is left of a number or a string -----------------------------------------------------

  lemma {:induction false} FirstLoud(t: string, e: nat, hi: nat) returns (p: nat)
    requires e <= hi < |t| && !Silent(t[hi])
    ensures e <= p <= hi && AllSilent(t[e..p]) && !Silent(t[p]) && t[e..] == t[e..p] + t[p..]
    decreases hi - e
  {
    hide Silent;
    if Silent(t[e]) {
      p := FirstLoud(t, e + 1, hi);
      assert t[e..p] == [t[e]] + t[e + 1..p];
    } else {
      p := e;
    }
  }

  lemma PrimIsLoud(c: char)
    requires PrimChar(c)
    ensures !Silent(c) && c != '"'
  {
  }

  lemma NumberLeft(t: string, o: string, m: Member, c: string, p: Spots, e: nat, st: St, u: string, off: nat,
      key: Option<string>)
    requires WfMember(m) && m.val.Prim? && Laid(t, o, m, c, p) && MemberAt(t, p) && p.colon < e < p.post
    requires st.super < |st.toks|
    ensures ReadOn(st, t[e..], off).Some? ==> NoKey(u, ReadOn(st, t[e..], off).value, |st.toks|, key)
  {
    Region(t, o, m, c, p);
    EndIsBehind(t, p);
    PrimIsLoud(t[p.post - 1]);
    hide Laid, MemberAt, WfMember, Silent, PrimChar, ReadOn, NoKey;
    var q := FirstLoud(t, e, p.post - 1);
    assert t[q..][0] == t[q] && t[q] != '"';
    OtherIsNoKey(st, t[e..q], t[q..], off, u, key);
  }

  // A quote in a string's content has a backslash before it.
  lemma QuoteInContent(x: string, k: nat)
    requires StrOk(x) && k < |x| && x[k] == '"'
    ensures k > 0 && x[k - 1] == '\\' && StrOk(x[k + 1..])
  {
    LexContent(x, k);
    LexContent(x, k + 1);
    assert x[..k + 1] == x[..k] + ['"'];
    LexAppend(In, x[..k], ['"']);
    LexOne(Lex(In, x[..k]), '"');
    if k > 0 {
      assert x[..k] == x[..k - 1] + [x[k - 1]];
      LexAppend(In, x[..k - 1], [x[k - 1]]);
      LexOne(Lex(In, x[..k - 1]), x[k - 1]);
    }
    hide StrOk;
  }

  lemma QuietBackslash()
    ensures !Silent('\\') && !Silent('"')
  {
  }

  // What follows the string.
  lemma FollowPost(post: string, c: string, g: string, z: string, key: Option<string>)
    requires AllWs(post) && Follow(c, g, z, key)
    ensures Mute(post + g) && post + c == (post + g) + z && (z == [] || z[0] == '"')
  {
  }

  lemma SilentBefore(x: string, k: nat, p: nat)
    requires k < p <= |x| && AllSilent(x[k..p])
    ensures Silent(x[p - 1])
  {
    assert x[k..p][p - 1 - k] == x[p - 1];
  }

  lemma ContentLeft(x: string, k: nat, post: string, c: string, g: string, z: string, st: St, u: string, off: nat,
      key: Option<string>)
    requires StrOk(x) && k <= |x| && AllWs(post) && Follow(c, g, z, key) && st.super < |st.toks|
    requires off <= |u| && u[off..] == x[k..] + ("\"" + (post + c))
    ensures var w := x[k..] + ("\"" + (post + c));
            ReadOn(st, w, off).Some? ==> NoKey(u, ReadOn(st, w, off).value, |st.toks|, key)
  {
    hide StrOk, ReadOn, NoKey, Silent, AllWs, Follow;
    var y := "\"" + (post + c);
    if AllSilent(x[k..]) {
      QuoteIsNoKey(st, x[k..], post, c, g, z, off, u, key);
    } else {
      var j :| 0 <= j < |x[k..]| && !Silent(x[k..][j]);
      var p := FirstLoud(x, k, k + j);
      if x[p] == '"' {
        QuoteInContent(x, p);
        QuietBackslash();
        if p > k { SilentBefore(x, k, p); }
        EscapedLeft(x, k, post, c, g, z, st, u, off, key);
      } else {
        assert x[k..] + y == x[k..p] + (x[p..] + y);
        OtherIsNoKey(st, x[k..p], x[p..] + y, off, u, key);
      }
    }
  }

  lemma EscapedLeft(x: string, k: nat, post: string, c: string, g: string, z: string, st: St, u: string, off: nat,
      key: Option<string>)
    requires k < |x| && x[k] == '"' && StrOk(x[k + 1..]) && AllWs(post) && Follow(c, g, z, key) && st.super < |st.toks|
    ensures var w := x[k..] + ("\"" + (post + c));
            ReadOn(st, w, off).Some? ==> NoKey(u, ReadOn(st, w, off).value, |st.toks|, key)
  {
    var v := x[k + 1..];
    FollowPost(post, c, g, z, key);
    assert x[k..] + ("\"" + (post + c)) == "" + ("\"" + v + "\"" + ((post + g) + z));
    hide *;
    TextLenOf(v, (post + g) + z);
    NothingQuiet();
    StringIsNoKey(st, "", v, post + g, z, off, u, key);
  }

  lemma NothingQuiet()
    ensures AllSilent("")
  {
  }

  lemma SpacesQuiet(t: string, p: Spots, e: nat)
    requires MemberAt(t, p) && p.colon < e <= p.val
    ensures AllSilent(t[e..p.val]) && t[e..] == t[e..p.val] + t[p.val..]
  {
    forall i | 0 <= i < p.val - e ensures Silent(t[e..p.val][i]) {
      assert t[e..p.val][i] == t[e + i];
    }
  }

  lemma StringAtIs(t: string, p: Spots, x: string, post: string, c: string)
    requires StringAt(t, p, x, post, c)
    ensures StrOk(x) && AllWs(post) && t[p.val..] == "\"" + x + "\"" + (post + c)
  {
    hide StrOk, AllWs;
  }

  lemma WholeStringLeft(t: string, p: Spots, x: string, post: string, c: string, e: nat, g: string, z: string, st: St,
      u: string,
                        off: nat, key: Option<string>)
    requires MemberAt(t, p) && StringAt(t, p, x, post, c) && p.colon < e <= p.val && Follow(c, g, z, key)
             && st.super < |st.toks|
    ensures ReadOn(st, t[e..], off).Some? ==> NoKey(u, ReadOn(st, t[e..], off).value, |st.toks|, key)
  {
    EndIsBehind(t, p);
    hide *;
    StringAtIs(t, p, x, post, c);
    FollowPost(post, c, g, z, key);
    SpacesQuiet(t, p, e);
    TextLenOf(x, (post + g) + z);
    StringIsNoKey(st, t[e..p.val], x, post + g, z, off, u, key);
  }

  lemma PartStringLeft(t: string, p: Spots, x: string, post: string, c: string, e: nat, g: string, z: string, st: St,
      u: string,
                       off: nat, key: Option<string>)
    requires MemberAt(t, p) && StringAt(t, p, x, post, c) && p.val < e < p.post && Follow(c, g, z, key)
             && st.super < |st.toks|
    requires off <= |u| && u[off..] == t[e..] && p.post == p.val + |x| + 2
    ensures ReadOn(st, t[e..], off).Some? ==> NoKey(u, ReadOn(st, t[e..], off).value, |st.toks|, key)
  {
    hide *;
    StringAtIs(t, p, x, post, c);
    SplitString(t, p, x, post, c, e);
    Assoc(x[e - p.val - 1..], "\"", post + c);
    ContentLeft(x, e - p.val - 1, post, c, g, z, st, u, off, key);
  }

  lemma StringLeft(t: string, p: Spots, x: string, post: string, c: string, e: nat, g: string, z: string, st: St,
      u: string, off: nat,
                   key: Option<string>)
    requires MemberAt(t, p) && StringAt(t, p, x, post, c) && p.colon < e < p.post && Follow(c, g, z, key)
    requires st.super < |st.toks| && off <= |u| && u[off..] == t[e..]
    ensures ReadOn(st, t[e..], off).Some? ==> NoKey(u, ReadOn(st, t[e..], off).value, |st.toks|, key)
  {
    assert p.post == p.val + |x| + 2;
    hide *;
    if e <= p.val {
      WholeStringLeft(t, p, x, post, c, e, g, z, st, u, off, key);
    } else {
      PartStringLeft(t, p, x, post, c, e, g, z, st, u, off, key);
    }
  }

  lemma ScalarLeft(t: string, o: string, m: Member, c: string, p: Spots, e: nat, g: string, z: string, st: St,
      u: string, off: nat,
                   key: Option<string>)
    requires WfMember(m) && Laid(t, o, m, c, p) && MemberAt(t, p) && Scalar(m.val) && p.colon < e < p.post
             && Follow(c, g, z, key)
    requires c != [] && (c[0] == ',' || c[0] == '}')
    requires st.super < |st.toks| && off <= |u| && u[off..] == t[e..]
    ensures ReadOn(st, t[e..], off).Some? ==> NoKey(u, ReadOn(st, t[e..], off).value, |st.toks|, key)
  {
    hide SpotsOf, WfMember, Laid, MemberAt, PrintMember, ReadOn, NoKey, Follow;
    if m.val.Prim? {
      NumberLeft(t, o, m, c, p, e, st, u, off, key);
    } else {
      StringAtSpots(t, o, m, c, p);
      StringLeft(t, p, m.val.text, m.post, c, e, g, z, st, u, off, key);
    }
  }

  // ----- What follows a member --------------------------------------------------------------------

  // The key whose token comes after the members before n, if there is one.
  function KeyFrom(d: Doc, at: Place, n: nat): Option<string>
    requires Holds(d, at) && n <= |ObjAt(d, at).members|
  {
    if n < |ObjAt(d, at).members| then Some(ObjAt(d, at).members[n].key)
    else if at.Within? && at.j + 1 < |d.root.members| then Some(d.root.members[at.j + 1].key)
    else None
  }

  lemma TailText(ms: seq<Member>, r: string)
    requires ms != []
    ensures var z, k := Tail(ms) + r, ms[0].key;
            |z| >= |k| + 2 && z[0] == '"' && z[1..1 + |k|] == k && z[|k| + 1] == '"'
  {
    var m := ms[0];
    var y := m.colon + ":" + m.mid + Print(m.val) + m.post;
    hide Print, PrintMembers;
    assert MemberBody(m) == "\"" + m.key + "\"" + y;
  }

  lemma FollowMore(ms: seq<Member>, i: nat, lead: string, right: string)
    requires i + 1 < |ms| && Mute(lead) && AllWs(ms[i + 1].pre)
    ensures Follow(lead + ("," + ms[i + 1].pre) + (Tail(ms[i + 1..]) + right), lead + ("," + ms[i + 1].pre),
            Tail(ms[i + 1..]) + right,
                   Some(ms[i + 1].key))
  {
    TailText(ms[i + 1..], right);
    hide Tail;
  }

  lemma WsAreMute(w: string)
    requires AllWs(w)
    ensures Mute(w) && Mute("}" + w) && Mute("}" + w + "}") && Mute("")
  {
  }

  lemma MuteJoin(a: string, b: string)
    requires Mute(a) && Mute(b)
    ensures Mute(a + b)
  {
  }

  lemma FollowOfLast(c: string)
    requires Mute(c)
    ensures Follow(c, c, "", None)
  {
    assert c + "" == c;
  }

  lemma RightOfMore(d: Doc, j: nat)
    requires Holds(d, Within(j)) && j + 1 < |d.root.members|
    ensures var os := d.root.members;
            "}" + RightOf(d, Within(j))
              == ("}" + os[j].post) + ("," + os[j + 1].pre) + (Tail(os[j + 1..]) + ("}" + d.post))
  {
    var os, y := d.root.members, "}" + d.post;
    MembersStart(os[j + 1..], y);
    hide PrintMembers, Tail;
    var x, z := PrintMembers(os[j + 1..]), Tail(os[j + 1..]) + y;
    assert "}" + (os[j].post + ("," + x) + "}" + d.post) == ("}" + os[j].post) + ("," + (x + y));
    assert ("}" + os[j].post) + ("," + (os[j + 1].pre + z)) == ("}" + os[j].post) + ("," + os[j + 1].pre) + z;
  }

  lemma RightOfLast(d: Doc, j: nat)
    requires Holds(d, Within(j)) && j + 1 == |d.root.members|
    ensures "}" + RightOf(d, Within(j)) == ("}" + d.root.members[j].post + "}") + d.post
  {
    assert "}" + (d.root.members[j].post + "" + "}" + d.post) == ("}" + d.root.members[j].post + "}") + d.post;
  }

  lemma FollowOf(d: Doc, at: Place, i: nat) returns (g: string, z: string)
    requires WfDoc(d) && Holds(d, at) && i < |ObjAt(d, at).members|
    ensures Follow(Closing(ObjAt(d, at).members, i, RightOf(d, at)), g, z, KeyFrom(d, at, i + 1))
  {
    var ms, right := ObjAt(d, at).members, RightOf(d, at);
    hide Follow, Mute, RightOf, Closing, Tail, WfDoc, Holds;
    if i + 1 < |ms| {
      FrontMember(d, at, i + 1);
      ClosingMore(ms, i, right);
      WsAreMute("") by { NothingIsWs(); }
      MemberParts(ms[i + 1]);
      FollowMore(ms, i, "", "}" + right);
      assert "" + ("," + ms[i + 1].pre) == "," + ms[i + 1].pre;
      g, z := "," + ms[i + 1].pre, Tail(ms[i + 1..]) + ("}" + right);
    } else {
      ClosingLast(ms, i, right);
      if at.Root? {
        g, z := FollowOfRoot(d);
      } else {
        g, z := FollowOfInner(d, at.j);
      }
    }
  }

  lemma FollowOfRoot(d: Doc) returns (g: string, z: string)
    requires WfDoc(d) && d.root.Obj?
    ensures Follow("}" + RightOf(d, Root), g, z, None)
  {
    g, z := "}" + d.post, "";
    WsAreMute(d.post);
    FollowOfLast(g);
  }

  lemma FollowOfInner(d: Doc, j: nat) returns (g: string, z: string)
    requires WfDoc(d) && Holds(d, Within(j))
    ensures Follow("}" + RightOf(d, Within(j)), g, z, KeyFrom(d, Within(j), |ObjAt(d, Within(j)).members|))
  {
    var os := d.root.members;
    FrontOf(d, j);
    MemberParts(os[j]);
    WsAreMute(os[j].post);
    WsAreMute(d.post);
    if j + 1 < |os| {
      FrontOf(d, j + 1);
      MemberParts(os[j + 1]);
      RightOfMore(d, j);
      hide Follow, Mute, RightOf, Tail, WfDoc, WfMember, AllWs;
      FollowMore(os, j, "}" + os[j].post, "}" + d.post);
      g, z := ("}" + os[j].post) + ("," + os[j + 1].pre), Tail(os[j + 1..]) + ("}" + d.post);
    } else {
      RightOfLast(d, j);
      hide Follow, Mute, RightOf, Tail, WfDoc, WfMember, AllWs;
      MuteJoin("}" + os[j].post + "}", d.post);
      FollowOfLast(("}" + os[j].post + "}") + d.post);
      g, z := ("}" + os[j].post + "}") + d.post, "";
    }
  }

  // ----- The token there --------------------------------------------------------------------------

  // The number of the token after the members before n.
  function TokenFrom(d: Doc, at: Place, n: nat): nat
    requires Holds(d, at) && n <= |ObjAt(d, at).members|
  {
    FirstNo(d, at) + MemberCount(ObjAt(d, at).members[..n])
  }

  lemma {:induction false} CountSplit(ms: seq<Member>, n: nat)
    requires n <= |ms|
    ensures MemberCount(ms) == MemberCount(ms[..n]) + MemberCount(ms[n..])
  {
    if n > 0 {
      CountSplit(ms[1..], n - 1);
      assert ms[..n][1..] == ms[1..][..n - 1] && ms[1..][n - 1..] == ms[n..] && ms[..n][0] == ms[0];
      hide Count;
    } else {
      assert ms[..0] == [] && ms[0..] == ms;
    }
  }

  lemma {:induction false} KeyNoIs(ms: seq<Member>, k: nat, i: nat)
    requires i < |ms|
    ensures KeyNo(ms, k, i) == k + MemberCount(ms[..i])
    decreases i
  {
    if i > 0 {
      KeyNoIs(ms[1..], k + 1 + Count(ms[0].val), i - 1);
      assert ms[..i][1..] == ms[1..][..i - 1] && ms[..i][0] == ms[0];
      hide Count;
    } else {
      assert ms[..0] == [];
    }
  }

  lemma CountOne(ms: seq<Member>, n: nat)
    requires n < |ms|
    ensures MemberCount(ms[..n + 1]) == MemberCount(ms[..n]) + 1 + Count(ms[n].val)
  {
    CountSplit(ms[..n + 1], n);
    assert ms[..n + 1][..n] == ms[..n] && ms[..n + 1][n..] == [ms[n]];
    assert [ms[n]][1..] == [];
    hide Count;
  }

  // A key's token, and its text.
  lemma KeyShown(d: Doc, at: Place, n: nat)
    requires WfDoc(d) && Holds(d, at) && n < |ObjAt(d, at).members|
    ensures var toks, k := Toks(d.root, |d.pre|), TokenFrom(d, at, n);
            k < |toks| && toks[k].IsId() && TextOf(PrintDoc(d), toks[k]) == ObjAt(d, at).members[n].key
  {
    hide *;
    var ms, left, toks := ObjAt(d, at).members, LeftOf(d, at), Toks(d.root, |d.pre|);
    var off := |left| + 1 + |Lead(ms[..n])|;
    TokensOfObject(d, at);
    TokenOfKey(ms, FirstNo(d, at), |left| + 1, toks, n);
    KeyIsInText(d, at, n);
    AroundMember(left, ms, n, RightOf(d, at));
    OpeningLength(left, ms, n);
    ShowsThere(Opening(left, ms, n), PrintMember(ms[n]), Closing(ms, n, RightOf(d, at)));
    ShowsKey(ms[n], off, PrintDoc(d));
    TokenOfIs(d, at, n);
    MemberTokensIs(toks, KeyNo(ms, FirstNo(d, at), n), ms[n], off);
  }

  lemma TokenOfIs(d: Doc, at: Place, n: nat)
    requires Holds(d, at) && n < |ObjAt(d, at).members|
    ensures TokenFrom(d, at, n) == KeyNo(ObjAt(d, at).members, FirstNo(d, at), n)
  {
    KeyNoIs(ObjAt(d, at).members, FirstNo(d, at), n);
    hide FirstNo, KeyNo, MemberCount;
  }

  lemma ShowsThere(a: string, b: string, c: string)
    ensures Shows(a + b + c, |a|, b)
  {
  }

  lemma MemberTokensIs(toks: seq<Tok>, n: nat, m: Member, off: nat)
    requires MemberTokens(toks, n, m, off)
    ensures n < |toks| && toks[n] == KeyTok(m, off) && toks[n].IsId()
  {
    hide Toks, TokensAt, HeadLen;
  }

  lemma TokenFromEnd(d: Doc, j: nat)
    requires Holds(d, Within(j))
    ensures TokenFrom(d, Within(j), |ObjAt(d, Within(j)).members|) == 1 + MemberCount(d.root.members[..j + 1])
  {
    var os := d.root.members;
    KeyNoIs(os, 1, j);
    CountOne(os, j);
    assert os[j].val.members[..|os[j].val.members|] == os[j].val.members;
    assert Count(os[j].val) == 1 + MemberCount(os[j].val.members);
    hide MemberCount, Count, KeyNo;
  }

  lemma TokenCountOf(d: Doc)
    requires d.root.Obj?
    ensures |Toks(d.root, |d.pre|)| == 1 + MemberCount(d.root.members)
  {
    TokCount(d.root, |d.pre|);
    hide Toks, MemberCount;
  }

  // The token after the members before n: that of the next key, or none.
  lemma NextToken(d: Doc, at: Place, n: nat)
    requires WfDoc(d) && Holds(d, at) && n <= |ObjAt(d, at).members|
    ensures var toks, k := Toks(d.root, |d.pre|), TokenFrom(d, at, n);
            match KeyFrom(d, at, n)
            case None => |toks| == k
            case Some(key) => k < |toks| && toks[k].IsId() && TextOf(PrintDoc(d), toks[k]) == key
  {
    var ms, os := ObjAt(d, at).members, d.root.members;
    hide Toks, PrintDoc, TextOf, MemberCount, KeyNo, WfDoc;
    if n < |ms| {
      KeyShown(d, at, n);
    } else if at.Within? && at.j + 1 < |os| {
      KeyShown(d, Root, at.j + 1);
      TokenFromEnd(d, at.j);
    } else {
      TokenCountOf(d);
      if at.Within? {
        TokenFromEnd(d, at.j);
        assert os[..at.j + 1] == os;
      } else {
        assert ms[..|ms|] == ms;
      }
    }
  }

  // ----- Texts with part of the member left -------------------------------------------------------

  lemma BadCutAt(t: string, o: string, m: Member, c: string, p: Spots)
    requires Laid(t, o, m, c, p) && MemberAt(t, p) && t[..p.open] == o && o != [] && !HeadCuttable(m)
    ensures var r := CutText(t, p.key, p.colon - 1, p.post - p.val);
            r == None || (p.colon < EndAt(t, p) < p.post <= |t| && r == Some(LeftFrom(t, o, EndAt(t, p))))
  {
    EndIsBehind(t, p);
    hide *;
    HeadAtIs(t, o, m, c, p);
    LaidCuttable(t, o, m, c, p);
    CuttableHasHead(m);
    if forall j | p.open <= j < p.key - 1 :: Before(t[j]) {
      CutLeavesNow(t, p, o);
      EndBefore(t, p);
    } else {
      CutFails(t, p);
    }
  }

  function PlaceOf(d: Doc, at: Place, i: nat): Spots
    requires Holds(d, at) && i < |ObjAt(d, at).members|
  {
    SpotsOf(Opening(LeftOf(d, at), ObjAt(d, at).members, i), ObjAt(d, at).members[i])
  }

  // Where the cut ends within the member.
  predicate EndsWithin(d: Doc, at: Place, i: nat, e: int)
    requires Holds(d, at) && i < |ObjAt(d, at).members|
  {
    PlaceOf(d, at, i).colon < e < PlaceOf(d, at, i).post <= |PrintDoc(d)|
  }

  lemma InDoc(d: Doc, at: Place, i: nat)
    requires WfDoc(d) && Holds(d, at) && i < |ObjAt(d, at).members|
    ensures var ms, t, p := ObjAt(d, at).members, PrintDoc(d), PlaceOf(d, at, i);
            var o, c := Opening(LeftOf(d, at), ms, i), Closing(ms, i, RightOf(d, at));
            InSpots(t, o, ms[i], c, p) && p.key == KeyAt(LeftOf(d, at), ms, i) && p.colon - 1 == p.key + |ms[i].key|
            && p.post - p.val == ValLen(ms, i)
  {
    assert PlaceOf(d, at, i) == SpotsOf(Opening(LeftOf(d, at), ObjAt(d, at).members, i), ObjAt(d, at).members[i]);
    hide *;
    KeyIsInText(d, at, i);
    MemberInText(LeftOf(d, at), ObjAt(d, at).members, i, RightOf(d, at));
    SpotsAreKeyAt(LeftOf(d, at), ObjAt(d, at).members, i);
  }

  lemma BadCut(d: Doc, at: Place, i: nat) returns (e: nat)
    requires WfDoc(d) && Holds(d, at) && i < |ObjAt(d, at).members| && !HeadCuttable(ObjAt(d, at).members[i])
    requires InText(PrintDoc(d), LeftOf(d, at), ObjAt(d, at).members, i)
    ensures var r, o := CutOf(PrintDoc(d), LeftOf(d, at), ObjAt(d, at).members, i),
            Opening(LeftOf(d, at), ObjAt(d, at).members, i);
            r == None || (EndsWithin(d, at, i, e) && e < |PrintDoc(d)| && r == Some(LeftFrom(PrintDoc(d), o, e)))
  {
    var ms, left, p := ObjAt(d, at).members, LeftOf(d, at), PlaceOf(d, at, i);
    hide *;
    InDoc(d, at, i);
    InSpotsIs(PrintDoc(d), Opening(left, ms, i), ms[i], Closing(ms, i, RightOf(d, at)), p);
    BadCutAt(PrintDoc(d), Opening(left, ms, i), ms[i], Closing(ms, i, RightOf(d, at)), p);
    CutOfIsCut(PrintDoc(d), left, ms, i, p);
    if CutOf(PrintDoc(d), left, ms, i) != None {
      e := EndAt(PrintDoc(d), p);
      EndsIs(d, at, i, e);
    } else {
      e := 0;
    }
  }

  lemma EndsIs(d: Doc, at: Place, i: nat, e: int)
    requires Holds(d, at) && i < |ObjAt(d, at).members|
    ensures EndsWithin(d, at, i, e) <==> PlaceOf(d, at, i).colon < e < PlaceOf(d, at, i).post <= |PrintDoc(d)|
  {
  }

  // Read from any state, the part left does not begin with the next key.
  lemma PartLeft(d: Doc, at: Place, i: nat, e: nat, st: St, u: string, off: nat)
    requires WfDoc(d) && Holds(d, at) && i < |ObjAt(d, at).members| && Scalar(ObjAt(d, at).members[i].val)
    requires EndsWithin(d, at, i, e) && e < |PrintDoc(d)| && st.super < |st.toks| && off <= |u|
             && u[off..] == PrintDoc(d)[e..]
    ensures var w := PrintDoc(d)[e..];
            ReadOn(st, w, off).Some? ==> NoKey(u, ReadOn(st, w, off).value, |st.toks|, KeyFrom(d, at, i + 1))
  {
    hide *;
    var ms, left, right := ObjAt(d, at).members, LeftOf(d, at), RightOf(d, at);
    InDoc(d, at, i);
    InSpotsIs(PrintDoc(d), Opening(left, ms, i), ms[i], Closing(ms, i, right), PlaceOf(d, at, i));
    EndsIs(d, at, i, e);
    var g, z := FollowOf(d, at, i);
    ScalarLeft(PrintDoc(d), Opening(left, ms, i), ms[i], Closing(ms, i, right), PlaceOf(d, at, i), e, g, z, st, u, off,
               KeyFrom(d, at, i + 1));
  }

  // ----- Such a text is not read as another document ----------------------------------------------

  lemma ObjStateCount(d: Doc, at: Place, i: nat)
    requires Holds(d, at) && i <= |ObjAt(d, at).members|
    ensures |ObjState(d, at, i).toks| == TokenFrom(d, at, i) && ObjState(d, at, i).super < |ObjState(d, at, i).toks|
  {
    var ms := ObjAt(d, at).members[..i];
    MemberTokCount(ms, |LeftOf(d, at)| + 1);
    if at.Within? {
      KeyNoIs(d.root.members, 1, at.j);
      MemberTokCount(d.root.members[..at.j], |d.pre| + 1);
    }
    hide MemberToks, MemberCount, KeyNo, LeftOf, Lead;
  }

  lemma WithOneCount(d: Doc, at: Place, i: nat, m: Member)
    requires Holds(d, at) && i < |ObjAt(d, at).members| && !IsBox(m.val)
    ensures |WithOne(d, at, i, m).toks| == TokenFrom(d, at, i) + 2
            && WithOne(d, at, i, m).super < |WithOne(d, at, i, m).toks|
  {
    ObjStateCount(d, at, i);
    TokCount(m.val, |Opening(LeftOf(d, at), ObjAt(d, at).members, i)| + HeadLen(m));
    hide Toks, Opening, LeftOf, ObjState, TokenFrom, HeadLen;
  }

  // Two texts are not alike if one has no key at a place where the other has this key, or nothing.
  lemma NotAlike(u: string, e: Doc, at: Place, n: nat, ts: seq<Raw>)
    requires WfDoc(e) && Holds(e, at) && n <= |ObjAt(e, at).members| && Tokenized(u) == Some(ts)
    requires NoKey(u, ts, TokenFrom(e, at, n), KeyFrom(e, at, n))
    ensures !ReadsAs(u, e)
  {
    NextToken(e, at, n);
    hide Tokenized, PrintDoc, Toks, TokenFrom, KeyFrom, WfDoc, Holds, ObjAt;
    if ReadsAs(u, e) {
      var k := TokenFrom(e, at, n);
      var x, y := ts[k], Raws(Toks(e.root, |e.pre|));
      assert SameTok(u, x, PrintDoc(e), y[k]);
      TextOfRaw(PrintDoc(e), Toks(e.root, |e.pre|)[k]);
    }
  }

  lemma TextOfRaw(t: string, k: Tok)
    ensures RawText(t, ToRaw(k)) == TextOf(t, k)
  {
  }

  // ----- Setting ----------------------------------------------------------------------------------

  predicate OpensWell(o: string) {
    o != [] && (o[|o| - 1] == '{' || (o[|o| - 1] == ',' && |o| >= 2 && o[|o| - 2] != '{'))
  }

  lemma OpeningOpens(d: Doc, at: Place, i: nat)
    requires WfDoc(d) && Holds(d, at) && i < |ObjAt(d, at).members|
    ensures OpensWell(Opening(LeftOf(d, at), ObjAt(d, at).members, i))
  {
    var ms, left := ObjAt(d, at).members, LeftOf(d, at);
    ObjectIsWf(d, at);
    LastOfOpening(left, ms, i);
    if i > 0 {
      LastOfMembers(ms[..i]);
    }
    hide PrintMembers, LeftOf, WfMember, Lead, Opening;
    if i > 0 {
      var a, x := Ahead(left, ms, i), PrintMembers(ms[..i]);
      assert a == left + "{" + x;
      assert a[|a| - 1] == x[|x| - 1];
    }
  }

  // The text after the cut and the insertion.
  lemma InsForm(t: string, o: string, e: nat, m: string)
    requires OpensWell(o) && e < |t|
    ensures var (u, pos) := LeftFrom(t, o, e);
            1 <= pos < |u| && InsText(u, pos, m) == o + m + (if t[e] == '}' then "" else ",") + t[e..]
  {
    var w := t[e..];
    assert w[0] == t[e];
    var (u, pos) := LeftFrom(t, o, e);
    if pos < |o| {
      InsBetween(o[..pos], w, m);
      assert o == o[..pos] + ",";
      assert o[..pos] + "," + m + "" + w == o + m + "" + w;
    } else {
      InsBetween(o, w, m);
      assert o + "" + m + "," + w == o + m + "," + w;
      assert o + "" + m + "" + w == o + m + "" + w;
    }
    hide InsText;
  }

  lemma StopsOrNot(w: string)
    requires w != []
    ensures Stops((if w[0] == '}' then "" else ",") + w)
  {
    assert "" + w == w;
  }

  // Reading it up to what is left.
  lemma ReadToLeft(d: Doc, at: Place, i: nat, m: Member, w: string) returns (st: St)
    requires WfDoc(d) && Holds(d, at) && i < |ObjAt(d, at).members| && WfMember(m) && !IsBox(m.val) && w != []
    ensures var o, c := Opening(LeftOf(d, at), ObjAt(d, at).members, i), if w[0] == '}' then "" else ",";
            && |st.toks| == TokenFrom(d, at, i) + 2 && st.super < |st.toks|
            && Tokenized(o + PrintMember(m) + c + w) == ReadOn(st, w, |o + PrintMember(m) + c|)
  {
    hide *;
    var o, c := Opening(LeftOf(d, at), ObjAt(d, at).members, i), if w[0] == '}' then "" else ",";
    var s, n := WithOne(d, at, i, m), |o| + |PrintMember(m)|;
    StopsOrNot(w);
    WithOneCount(d, at, i, m);
    AfterWithOne(d, at, i, m, c + w);
    Assoc4(o, PrintMember(m), c, w);
    if w[0] == '}' {
      EmptyFront(w);
      st := s;
    } else {
      AfterComma(s, w, n);
      Then(Start, o + (PrintMember(m) + (c + w)), 0, s, c + w, n, Comma(s), w, n + 1);
      CommaKeeps(s);
      st := Comma(s);
    }
    StartReads(o + (PrintMember(m) + (c + w)), st, w, n + |c|);
  }

  lemma Assoc4(a: string, b: string, c: string, w: string)
    ensures a + b + c + w == a + (b + (c + w)) && |a + b + c| == |a| + |b| + |c|
  {
  }

  lemma CommaKeeps(s: St)
    requires s.super < |s.toks|
    ensures |Comma(s).toks| == |s.toks| && Comma(s).super < |s.toks|
  {
  }

  lemma StartReads(t: string, st: St, w: string, n: nat)
    requires Goes(Start, t, 0, st, w, n)
    ensures Tokenized(t) == ReadOn(st, w, n)
  {
    hide ReadOn;
  }

  // The numbers of the tokens around a member that has been set.
  lemma SettingPlaces(d: Doc, at: Place, i: nat, v: Value)
    requires WfDoc(d) && Holds(d, at) && i < |ObjAt(d, at).members| && Wf(v) && !IsBox(v)
    ensures var e := Setting(d, at, i, v);
            && Holds(e, at) && i + 1 <= |ObjAt(e, at).members|
            && TokenFrom(e, at, i + 1) == TokenFrom(d, at, i) + 2 && KeyFrom(e, at, i + 1) == KeyFrom(d, at, i + 1)
  {
    var ms, m := ObjAt(d, at).members, Plain(ObjAt(d, at).members[i].key, v);
    var us := Replaced(ms, i, m);
    SettingParts(d, at, i, v);
    SplitOfReplaced(ms, i, m);
    SamePlace(d, at, Obj(us, ""));
    SameFirst(d, at, Obj(us, ""));
    CountOne(us, i);
    if i + 1 < |ms| {
      assert us[i + 1] == us[i + 1..][0] && ms[i + 1] == ms[i + 1..][0];
    }
    hide WfDoc, PrintDoc, Replaced, WfMember, FirstNo, Opening, Closing, LeftOf, RightOf, TrimAfter, MemberCount, Wf,
      PrintMember;
    assert Count(us[i].val) == 1;
  }

  // The token an object starts with, and what comes after it, do not depend on it.
  lemma SameFirst(d: Doc, at: Place, v: Value)
    requires Holds(d, at) && v.Obj?
    ensures var e := WithObj(d, at, v);
            Holds(e, at) && FirstNo(e, at) == FirstNo(d, at)
            && (at.Within? ==> forall k | 0 <= k < |d.root.members| :: e.root.members[k].key == d.root.members[k].key)
            && (at.Within? ==> |e.root.members| == |d.root.members|)
  {
    if at.Within? {
      var os := d.root.members;
      var us := os[at.j := os[at.j].(val := v)];
      KeyNoIs(os, 1, at.j);
      KeyNoIs(us, 1, at.j);
      assert us[..at.j] == os[..at.j];
      hide KeyNo, MemberCount;
    }
  }

  lemma SettingUnread(d: Doc, at: Place, i: nat, key: string, v: Value, u: string)
    requires WfDoc(d) && Holds(d, at) && i < |ObjAt(d, at).members| && StrOk(key) && Wf(v) && !IsBox(v)
    requires Scalar(ObjAt(d, at).members[i].val) && !HeadCuttable(ObjAt(d, at).members[i])
    requires Sets(PrintDoc(d), LeftOf(d, at), ObjAt(d, at).members, i, Plain(key, v), u)
    ensures !ReadsAs(u, Setting(d, at, i, v))
  {
    hide *;
    var ms, t := ObjAt(d, at).members, PrintDoc(d);
    var m, o := Plain(key, v), Opening(LeftOf(d, at), ms, i);
    MemberIsInText(d, at, i);
    PlainIsWf(key, v);
    var e := BadCut(d, at, i);
    SetsParts(t, LeftOf(d, at), ms, i, m, u);
    OpeningOpens(d, at, i);
    InsForm(t, o, e, PrintMember(m));
    SettingParts(d, at, i, v);
    SettingPlaces(d, at, i, v);
    var w := t[e..];
    PlainBox(key, v);
    var st := ReadToLeft(d, at, i, m, w);
    var p := o + PrintMember(m) + (if w[0] == '}' then "" else ",");
    DropFront(p, w);
    PartLeft(d, at, i, e, st, p + w, |p|);
    if Tokenized(u).Some? {
      NotAlike(u, Setting(d, at, i, v), at, i + 1, Tokenized(u).value);
    } else {
      Unread(u, Setting(d, at, i, v));
    }
  }

  lemma KeyIsOk(d: Doc, at: Place, i: nat)
    requires WfDoc(d) && Holds(d, at) && i < |ObjAt(d, at).members|
    ensures StrOk(ObjAt(d, at).members[i].key)
  {
    ObjectIsWf(d, at);
    assert ObjAt(d, at).members[i] in ObjAt(d, at).members;
    hide Wf, StrOk;
  }

  lemma PlainBox(key: string, v: Value)
    ensures IsBox(Plain(key, v).val) == IsBox(v)
  {
  }

  lemma Unread(u: string, e: Doc)
    requires Tokenized(u) == None
    ensures !ReadsAs(u, e)
  {
    hide Tokenized;
  }

  lemma SetsParts(t: string, left: string, ms: seq<Member>, i: nat, m: Member, u: string)
    requires i < |ms| && Sets(t, left, ms, i, m, u) && InText(t, left, ms, i)
    ensures var r := CutOf(t, left, ms, i);
            r.Some? && 1 <= r.value.1 < |r.value.0| && u == InsText(r.value.0, r.value.1, PrintMember(m))
  {
    hide KeyAt, ValLen, CutText, InsText, PrintMember;
  }

  lemma SetsFrom(t: string, left: string, ms: seq<Member>, i: nat, m: Member, c: string, pos: nat)
    requires i < |ms| && InText(t, left, ms, i) && CutOf(t, left, ms, i) == Some((c, pos)) && 1 <= pos < |c|
    ensures Sets(t, left, ms, i, m, InsText(c, pos, PrintMember(m)))
  {
    hide KeyAt, ValLen, CutText, InsText, PrintMember;
  }

  // With other white space behind the value, what cutting and inserting leave.
  lemma SetsLoosely(d: Doc, at: Place, i: nat, v: Value)
    requires WfDoc(d) && Holds(d, at) && i < |ObjAt(d, at).members|
    requires HeadCuttable(ObjAt(d, at).members[i]) && !Cuttable(ObjAt(d, at).members[i])
    ensures InText(PrintDoc(d), LeftOf(d, at), ObjAt(d, at).members, i)
    ensures var o := Opening(LeftOf(d, at), ObjAt(d, at).members, i);
            && CutOf(PrintDoc(d), LeftOf(d, at), ObjAt(d, at).members, i) == Some((CutLoosely(d, at, i), |o|))
            && 1 <= |o| < |CutLoosely(d, at, i)|
            && InsText(CutLoosely(d, at, i), |o|, PrintMember(Plain(ObjAt(d, at).members[i].key, v)))
               == SetLoosely(d, at, i, v)
  {
    var ms, left := ObjAt(d, at).members, LeftOf(d, at);
    var o, m, ws, c := Opening(left, ms, i), Plain(ms[i].key, v), TrimAfter(ms[i].post), Closing(ms, i, RightOf(d, at));
    MemberIsInText(d, at, i);
    SpacesLeft(d, at, i);
    LeftNotEmpty(d, at, i);
    assert CutLoosely(d, at, i) == o + (ws + c) && SetLoosely(d, at, i, v) == o + PrintMember(m) + ("," + (ws + c));
    hide *;
    InsertLoosely(o, ws + c, PrintMember(m));
  }

  lemma InsertLoosely(o: string, w: string, m: string)
    requires o != [] && w != [] && w[0] != '}'
    ensures 1 <= |o| < |o + w| && InsText(o + w, |o|, m) == o + m + ("," + w)
  {
    InsBetween(o, w, m);
    assert o + "" + m + "," + w == o + m + ("," + w);
    hide InsText;
  }

  lemma LeftNotEmpty(d: Doc, at: Place, i: nat)
    requires WfDoc(d) && Holds(d, at) && i < |ObjAt(d, at).members|
    requires HeadCuttable(ObjAt(d, at).members[i]) && !Cuttable(ObjAt(d, at).members[i])
    ensures var w := TrimAfter(ObjAt(d, at).members[i].post) +
            Closing(ObjAt(d, at).members, i, RightOf(d, at)); w != [] && w[0] != '}'
  {
    var m := ObjAt(d, at).members[i];
    FrontMember(d, at, i);
    TrimKept(m.post, "");
    TrimmedIsWs(m);
    hide TrimAfter, Closing, WfMember, WfDoc;
  }

  // Replacing a number or a string gives a text that jsmn_parse reads as the updated document if and
  // only if the white space up to the value is what the cut skips; behind the value it may be any.
  lemma SettingReadsIff(d: Doc, at: Place, i: nat, v: Value)
    requires WfDoc(d) && Holds(d, at) && i < |ObjAt(d, at).members| && Wf(v) && !IsBox(v)
             && Scalar(ObjAt(d, at).members[i].val)
    ensures var m := ObjAt(d, at).members[i];
            HeadCuttable(m) <==> exists u :: Sets(PrintDoc(d), LeftOf(d, at), ObjAt(d, at).members, i,
              Plain(m.key, v), u)
                                          && ReadsAs(u, Setting(d, at, i, v))
  {
    var ms := ObjAt(d, at).members;
    CuttableHasHead(ms[i]);
    hide WfDoc, Sets, ReadsAs, PrintDoc, Setting, ObjAt, Holds, LeftOf, Cuttable, HeadCuttable, Wf, SetLoosely,
      CutLoosely,
      Opening, InsText, PrintMember, CutOf, InText;
    if Cuttable(ms[i]) {
      SettingText(d, at, i, v);
      SettingParts(d, at, i, v);
      BoxOfObj(Setting(d, at, i, v));
      DocReads(Setting(d, at, i, v));
    } else if HeadCuttable(ms[i]) {
      SetsLoosely(d, at, i, v);
      SetsFrom(PrintDoc(d), LeftOf(d, at), ms, i, Plain(ms[i].key, v), CutLoosely(d, at, i),
        |Opening(LeftOf(d, at), ms, i)|);
      SettingReads(d, at, i, v);
    } else {
      forall u | Sets(PrintDoc(d), LeftOf(d, at), ms, i, Plain(ms[i].key, v), u)
        ensures !ReadsAs(u, Setting(d, at, i, v))
      {
        KeyIsOk(d, at, i);
        SettingUnread(d, at, i, ms[i].key, v, u);
      }
    }
  }

  // ----- Removing ---------------------------------------------------------------------------------

  lemma LessPlaces(d: Doc, at: Place, i: nat)
    requires WfDoc(d) && Holds(d, at) && i < |ObjAt(d, at).members|
    ensures var e := Less(d, at, i);
            && Holds(e, at) && i <= |ObjAt(e, at).members|
            && TokenFrom(e, at, i) == TokenFrom(d, at, i) && KeyFrom(e, at, i) == KeyFrom(d, at, i + 1)
  {
    var ms := ObjAt(d, at).members;
    var us := Removed(ms, i);
    SamePlace(d, at, Obj(us, ""));
    SameFirst(d, at, Obj(us, ""));
    RemovedParts(ms, i);
    hide WfDoc, Removed, FirstNo, LeftOf, RightOf, MemberCount;
  }

  lemma RemovedParts(ms: seq<Member>, i: nat)
    requires i < |ms|
    ensures var us := Removed(ms, i);
            |us| == |ms| - 1 && us[..i] == ms[..i] && (i + 1 < |ms| ==> us[i].key == ms[i + 1].key)
  {
    hide TrimAfter;
  }

  // Reading the text without the member up to what is left.
  lemma ReadCutToLeft(d: Doc, at: Place, i: nat, o: string, w: string) returns (st: St)
    requires WfDoc(d) && Holds(d, at) && i < |ObjAt(d, at).members| && w != []
    requires o == Opening(LeftOf(d, at), ObjAt(d, at).members, i)
             || (i > 0 && o + "," == Opening(LeftOf(d, at), ObjAt(d, at).members, i) && w[0] == '}')
    ensures |st.toks| == TokenFrom(d, at, i) && st.super < |st.toks| && Tokenized(o + w) == ReadOn(st, w, |o|)
  {
    hide *;
    if o == Opening(LeftOf(d, at), ObjAt(d, at).members, i) {
      st := ObjState(d, at, i);
      ObjStateCount(d, at, i);
      AfterOpening(d, at, i, w);
      StartReads(o + w, st, w, |o|);
    } else {
      st := ReadCutBefore(d, at, i, o, w);
    }
  }

  lemma ReadCutBefore(d: Doc, at: Place, i: nat, o: string, w: string) returns (st: St)
    requires WfDoc(d) && Holds(d, at) && 0 < i < |ObjAt(d, at).members| && w != [] && w[0] == '}'
    requires o + "," == Opening(LeftOf(d, at), ObjAt(d, at).members, i)
    ensures |st.toks| == TokenFrom(d, at, i) && st.super < |st.toks| && Tokenized(o + w) == ReadOn(st, w, |o|)
  {
    hide *;
    var ms := ObjAt(d, at).members;
    var m, o1 := ms[i - 1], Opening(LeftOf(d, at), ms, i - 1);
    OpeningStep(LeftOf(d, at), ms, i);
    FrontMember(d, at, i - 1);
    TokenStep(d, at, i - 1);
    st := WithOne(d, at, i - 1, m);
    LongerCount(d, at, i - 1, m);
    BraceFirst(w);
    LastDropped(o, o1 + PrintMember(m));
    AfterWithOne(d, at, i - 1, m, w);
    Assoc(o1, PrintMember(m), w);
    PlusLength(o1, PrintMember(m));
    StartReads(o1 + (PrintMember(m) + w), st, w, |o|);
  }

  lemma BraceFirst(w: string)
    requires w != [] && w[0] == '}'
    ensures Stops(w)
  {
  }

  lemma TokenStep(d: Doc, at: Place, n: nat)
    requires Holds(d, at) && n < |ObjAt(d, at).members|
    ensures TokenFrom(d, at, n + 1) == TokenFrom(d, at, n) + 1 + Count(ObjAt(d, at).members[n].val)
  {
    CountOne(ObjAt(d, at).members, n);
    hide FirstNo, MemberCount, Count;
  }

  lemma OpeningStep(left: string, ms: seq<Member>, i: nat)
    requires 0 < i < |ms|
    ensures Opening(left, ms, i) == Opening(left, ms, i - 1) + PrintMember(ms[i - 1]) + ","
  {
    assert ms[..i] == ms[..i - 1] + [ms[i - 1]];
    LeadAppend(ms[..i - 1], ms[i - 1]);
    hide Lead, PrintMember;
    assert left + "{" + (Lead(ms[..i - 1]) + PrintMember(ms[i - 1]) + ",")
           == left + "{" + Lead(ms[..i - 1]) + PrintMember(ms[i - 1]) + ",";
  }

  lemma LongerCount(d: Doc, at: Place, i: nat, m: Member)
    requires Holds(d, at) && i < |ObjAt(d, at).members|
    ensures |WithOne(d, at, i, m).toks| == TokenFrom(d, at, i) + 1 + Count(m.val)
            && WithOne(d, at, i, m).super < |WithOne(d, at, i, m).toks|
  {
    ObjStateCount(d, at, i);
    TokCount(m.val, |Opening(LeftOf(d, at), ObjAt(d, at).members, i)| + HeadLen(m));
    hide Toks, Opening, LeftOf, ObjState, TokenFrom, HeadLen, Count;
  }

  lemma RemovingUnread(d: Doc, at: Place, i: nat)
    requires WfDoc(d) && Holds(d, at) && i < |ObjAt(d, at).members|
    requires Scalar(ObjAt(d, at).members[i].val) && !HeadCuttable(ObjAt(d, at).members[i])
    requires InText(PrintDoc(d), LeftOf(d, at), ObjAt(d, at).members, i)
    requires CutOf(PrintDoc(d), LeftOf(d, at), ObjAt(d, at).members, i).Some?
    ensures !ReadsAs(CutOf(PrintDoc(d), LeftOf(d, at), ObjAt(d, at).members, i).value.0, Less(d, at, i))
  {
    hide *;
    var t, o := PrintDoc(d), Opening(LeftOf(d, at), ObjAt(d, at).members, i);
    var e := BadCut(d, at, i);
    OpeningOpens(d, at, i);
    LessPlaces(d, at, i);
    LessIsWf(d, at, i);
    var w := t[e..];
    var u, p := LeftFrom(t, o, e).0, LeftFront(t, o, e);
    LeftFromIs(d, at, i, t, o, e);
    var st := ReadCutToLeft(d, at, i, p, w);
    DropFront(p, w);
    PartLeft(d, at, i, e, st, p + w, |p|);
    if Tokenized(u).Some? {
      NotAlike(u, Less(d, at, i), at, i, Tokenized(u).value);
    } else {
      Unread(u, Less(d, at, i));
    }
  }

  function LeftFront(t: string, o: string, e: nat): string
    requires e < |t| && o != []
  {
    if o[|o| - 1] == ',' && t[e] == '}' then o[..|o| - 1] else o
  }

  lemma LeftFromIs(d: Doc, at: Place, i: nat, t: string, o: string, e: nat)
    requires Holds(d, at) && i < |ObjAt(d, at).members| && o == Opening(LeftOf(d, at), ObjAt(d, at).members, i)
             && e < |t|
    ensures var p, w := LeftFront(t, o, e), t[e..];
            && w != [] && LeftFrom(t, o, e).0 == p + w
            && (p == o || (i > 0 && p + "," == o && w[0] == '}'))
  {
    LastOfOpening(LeftOf(d, at), ObjAt(d, at).members, i);
    hide Opening, LeftOf, Ahead;
    assert t[e..][0] == t[e];
    assert o == o[..|o| - 1] + [o[|o| - 1]];
  }

  // Cutting a number or a string out gives a text that jsmn_parse reads as the document without it if
  // and only if the white space up to the value is what the cut skips.
  lemma RemovingReadsIff(d: Doc, at: Place, i: nat)
    requires WfDoc(d) && Holds(d, at) && i < |ObjAt(d, at).members| && Scalar(ObjAt(d, at).members[i].val)
    ensures InText(PrintDoc(d), LeftOf(d, at), ObjAt(d, at).members, i)
    ensures var r := CutOf(PrintDoc(d), LeftOf(d, at), ObjAt(d, at).members, i);
            r.Some? && ReadsAs(r.value.0, Less(d, at, i)) <==> HeadCuttable(ObjAt(d, at).members[i])
  {
    hide *;
    var m := ObjAt(d, at).members[i];
    MemberIsInText(d, at, i);
    CuttableHasHead(m);
    if Cuttable(m) {
      CutIsLess(d, at, i);
      LessIsWf(d, at, i);
      DocReads(Less(d, at, i));
    } else if HeadCuttable(m) {
      SetsLoosely(d, at, i, Prim(""));
      RemovingReads(d, at, i);
    } else if CutOf(PrintDoc(d), LeftOf(d, at), ObjAt(d, at).members, i).Some? {
      RemovingUnread(d, at, i);
    }
  }

  lemma CutIsLess(d: Doc, at: Place, i: nat)
    requires WfDoc(d) && Holds(d, at) && i < |ObjAt(d, at).members| && Cuttable(ObjAt(d, at).members[i])
    requires InText(PrintDoc(d), LeftOf(d, at), ObjAt(d, at).members, i)
    ensures CutOf(PrintDoc(d), LeftOf(d, at), ObjAt(d, at).members, i)
         == Some((PrintDoc(Less(d, at, i)), CutAt(LeftOf(d, at), ObjAt(d, at).members, i)))
  {
    assert Less(d, at, i) == WithObj(d, at, Obj(Removed(ObjAt(d, at).members, i), ""));
    hide *;
    CutsInDoc(d, at, i);
    CutIsCutOf(PrintDoc(d), LeftOf(d, at), ObjAt(d, at).members, i, PrintDoc(Less(d, at, i)),
               CutAt(LeftOf(d, at), ObjAt(d, at).members, i));
  }
}
