/** Exactly when the text edits of cfg/cfg.cpp do what they are for. */
module CfgExact {
  import opened Wrappers
  import opened JsonText
  import opened JsonLex
  import opened CfgText
  import opened CfgSet
  import opened CfgDoc
  import opened CfgSpots

  // ----- Texts that do not parse ------------------------------------------------------------------

  // What follows a comma in an object but does not start a member.
  predicate NoMember(x: string) {
    var (_, r) := ScanWs(x); r == [] || r[0] != '"'
  }

  lemma NoMembers(x: string)
    requires NoMember(x)
    ensures ParseMembers(x) == None
  {
  }

  // Members in front, and what follows them.
  lemma {:induction false} LeadParses(a: seq<Member>, x: string)
    requires WfMembers(a)
    ensures ParseMembers(Lead(a) + x) == match ParseMembers(x) case None => None case Some((ms, r)) => Some((a + ms, r))
  {
    hide PrintMember, ParseMember, WfMember;
    if a == [] {
      assert Lead(a) + x == x;
      assert forall ms: seq<Member> :: [] + ms == ms;
    } else {
      assert a[0] in a;
      var y := "," + (Lead(a[1..]) + x);
      assert Lead(a) + x == PrintMember(a[0]) + y;
      ParseOfMember(a[0], y);
      LeadParses(a[1..], x);
      assert y[1..] == Lead(a[1..]) + x;
      assert forall ms: seq<Member> :: [a[0]] + (a[1..] + ms) == a + ms;
    }
  }

  lemma OpensWithMember(a: seq<Member>, x: string)
    requires WfMembers(a) && (a == [] ==> var (_, r) := ScanWs(x); r == [] || r[0] != '}')
    ensures var (_, r) := ScanWs(Lead(a) + x); r == [] || r[0] != '}'
  {
    if a == [] {
      assert Lead(a) + x == x;
    } else {
      LeadIsPrint(a);
      Assoc(PrintMembers(a), ",", x);
      MembersStart(a, "," + x);
      assert a[0] in a && WfMember(a[0]);
      ScanWsOfPrint(a[0].pre, Tail(a) + ("," + x));
    }
  }

  lemma ObjectFails(a: seq<Member>, x: string)
    requires WfMembers(a) && ParseMembers(x) == None
    requires a == [] ==> var (_, r) := ScanWs(x); r == [] || r[0] != '}'
    ensures ParseValue("{" + Lead(a) + x) == None
  {
    Assoc("{", Lead(a), x);
    LeadParses(a, x);
    OpensWithMember(a, x);
    hide ParseMembers, ScanWs, Lead;
    assert ("{" + (Lead(a) + x))[1..] == Lead(a) + x;
  }

  lemma JoinHead(m: Member, y: string)
    ensures HeadOf(m) + y == m.pre + ("\"" + (m.key + "\"" + (m.colon + (":" + (m.mid + y)))))
  {
  }

  // A member up to its value, and what follows.
  lemma HeadParses(m: Member, y: string)
    requires WfMember(m) && y != [] && !IsWs(y[0])
    ensures !NoMember(HeadOf(m) + y)
    ensures ParseMember(HeadOf(m) + y) == match ParseValue(y)
                                          case None => None
                                          case Some((v, e)) => Some((m.(val := v, post := ScanWs(e).0), ScanWs(e).1))
  {
    hide Wf, ParseValue, ScanWs, ScanStr, StrOk, AllWs, HeadOf;
    var c := ":" + (m.mid + y);
    var b := m.colon + c;
    var a := "\"" + (m.key + "\"" + b);
    JoinHead(m, y);
    ScanWsOfPrint(m.pre, a);
    assert a[1..] == m.key + "\"" + b;
    ScanStrOfPrint(m.key, b);
    ScanWsOfPrint(m.colon, c);
    assert c[1..] == m.mid + y;
    ScanWsOfPrint(m.mid, y);
  }

  // An object that does not parse makes a document that does not parse.
  lemma DocFails(d: Doc, at: Place, y: string)
    requires WfDoc(d) && Holds(d, at) && y != [] && y[0] == '{' && ParseValue(y) == None
    ensures Parse(LeftOf(d, at) + y) == None
  {
    if at.Root? {
      RootFails(d.pre, y);
    } else {
      var os := d.root.members;
      assert os[at.j] in os && WfMember(os[at.j]);
      HeadParses(os[at.j], y);
      var x := HeadOf(os[at.j]) + y;
      ObjectFails(os[..at.j], x);
      hide Lead, HeadOf, ParseValue, NoMember;
      RootFails(d.pre, "{" + Lead(os[..at.j]) + x);
      var l := "{" + Lead(os[..at.j]);
      Assoc(d.pre, "{", Lead(os[..at.j]));
      Assoc(l, HeadOf(os[at.j]), y);
      Assoc(d.pre, l, HeadOf(os[at.j]));
      Assoc(d.pre, l + HeadOf(os[at.j]), y);
    }
  }

  lemma RootFails(pre: string, y: string)
    requires AllWs(pre) && y != [] && !IsWs(y[0]) && ParseValue(y) == None
    ensures Parse(pre + y) == None
  {
    ScanWsOfPrint(pre, y);
    hide ParseValue;
  }

  // What starts neither a member nor ends the object.
  predicate Junk(w: string) {
    w != [] && ParseMembers(w) == None && var (_, r) := ScanWs(w); r == [] || r[0] != '}'
  }

  // A stretch of text without quotes and braces that is not all white space.
  lemma {:induction false} NothingFrom(t: string, e: nat, p: nat)
    requires e <= p < |t| && !IsWs(t[p]) && forall j | e <= j <= p :: t[j] != '"' && t[j] != '}'
    ensures var (_, r) := ScanWs(t[e..]); r != [] && r[0] != '"' && r[0] != '}'
    decreases p - e
  {
    if IsWs(t[e]) {
      NothingFrom(t, e + 1, p);
      assert t[e..][1..] == t[e + 1..];
    }
  }

  lemma JunkFrom(t: string, e: nat, p: nat)
    requires e <= p < |t| && !IsWs(t[p]) && forall j | e <= j <= p :: t[j] != '"' && t[j] != '}'
    ensures Junk(t[e..])
  {
    NothingFrom(t, e, p);
    NoMembers(t[e..]);
    hide ParseMembers, ScanWs, IsWs;
  }

  // ----- What the cut leaves ----------------------------------------------------------------------

  // What the cut leaves of a member with other white space: something that does not start a member, or
  // that ends inside a string.
  predicate Rubbish(w: string) {
    w != [] && w[0] != '}' && ParseMembers(w) == None
  }

  lemma JunkIsRubbish(w: string)
    requires Junk(w)
    ensures Rubbish(w)
  {
    hide ParseMembers;
  }

  predicate Flipped(w: string) {
    Lex(Out, w) != Out
  }

  predicate Spoilt(r: Option<(string, nat)>, o: string) {
    r.Some? ==>
      var (u, pos) := r.value;
      && pos <= |o| <= pos + 1 && pos <= |u| && u[..pos] == o[..pos]
      && ((pos == |o| && Rubbish(u[pos..])) || Flipped(u[pos..]))
  }

  // What the cut gives if it leaves the text from e on.
  function LeftFrom(t: string, o: string, e: nat): (string, nat)
    requires o != [] && e <= |t|
  {
    if o[|o| - 1] == ',' && e < |t| && t[e] == '}' then (o[..|o| - 1] + t[e..], |o| - 1) else (o + t[e..], |o|)
  }

  // Where the cut leaves off at the end, and what it gives then.
  function EndAt(t: string, p: Spots): int
    requires p.colon < |t|
  {
    var e := OverInside(t, p.colon + 1) + p.post - p.val;
    if 0 <= e <= |t| then OverAfter(t, e) else -1
  }

  predicate LeavesFrom(t: string, p: Spots, o: string)
    requires 2 <= p.key < p.colon && p.val <= p.post && p.colon + 1 + p.post - p.val <= |t| && o != []
  {
    var e := EndAt(t, p);
    0 <= e <= |t| && p.colon < e < p.end && CutText(t, p.key, p.colon - 1, p.post - p.val) == Some(LeftFrom(t, o, e))
  }

  // With a carriage return before the key a check fails; otherwise the text is left from the first
  // character after the value's length that is not skipped.
  lemma CutLeaves(t: string, p: Spots, o: string)
    requires MemberAt(t, p) && !CuttableAt(t, p) && t[..p.open] == o
    ensures CutText(t, p.key, p.colon - 1, p.post - p.val) == None || LeavesFrom(t, p, o)
  {
    hide Before, Inside, After, BackOver, IsWs, OverInside, OverAfter, CutText, EndAt, LeftFrom, CuttableAt;
    if forall j | p.open <= j < p.key - 1 :: Before(t[j]) {
      StartOfCut(t, p);
      EndOfCut(t, p);
      CutFrom(t, p, o, EndAt(t, p));
    } else {
      CutFails(t, p);
    }
  }

  lemma StartOfCut(t: string, p: Spots)
    requires MemberAt(t, p) && forall j | p.open <= j < p.key - 1 :: Before(t[j])
    ensures BackOver(t, p.key - 2) == p.open - 1
  {
    StartStops(t, p);
    hide Before, Inside, After, BackOver, IsWs;
  }

  lemma EndOfCut(t: string, p: Spots)
    requires MemberAt(t, p) && !CuttableAt(t, p) && forall j | p.open <= j < p.key - 1 :: Before(t[j])
    ensures p.colon < EndAt(t, p) < p.end && p.colon + 1 + p.post - p.val <= |t|
  {
    EndStops(t, p);
    hide Before, Inside, After, OverInside, OverAfter, IsWs, CuttableAt;
  }

  lemma NotWsOpen()
    ensures !IsWs('{') && !IsWs(',')
  {
  }

  lemma CutFails(t: string, p: Spots)
    requires MemberAt(t, p) && !forall j | p.open <= j < p.key - 1 :: Before(t[j])
    ensures CutText(t, p.key, p.colon - 1, p.post - p.val) == None
  {
    StartStops(t, p);
    NotWsOpen();
    hide Before, Inside, After, BackOver, IsWs, OverInside, OverAfter;
  }

  lemma CutFrom(t: string, p: Spots, o: string, e: nat)
    requires 1 <= p.open < p.key < p.colon < |t| && t[..p.open] == o && (t[p.open - 1] == '{' || t[p.open - 1] == ',')
    requires p.key >= 2 && p.val <= p.post && p.colon + 1 + p.post - p.val <= |t|
             && BackOver(t, p.key - 2) == p.open - 1
    requires EndAt(t, p) == e <= |t|
    ensures CutText(t, p.key, p.colon - 1, p.post - p.val) == Some(LeftFrom(t, o, e))
  {
    hide OverInside, OverAfter, BackOver;
    assert t[p.open - 1] == o[|o| - 1];
    assert t[..p.open - 1] == o[..|o| - 1];
  }

  lemma LeftIsSpoilt(t: string, o: string, e: nat)
    requires o != [] && e < |t| && (Rubbish(t[e..]) || Flipped(t[e..]))
    ensures Spoilt(Some(LeftFrom(t, o, e)), o)
  {
    var w := t[e..];
    assert w[0] == t[e];
    assert (o + w)[..|o|] == o == o[..|o|] && (o + w)[|o|..] == w;
    var n := |o| - 1;
    assert (o[..n] + w)[..n] == o[..n] && (o[..n] + w)[n..] == w;
    hide ParseMembers, Lex;
  }

  // A string at p in t.
  predicate StringAt(t: string, p: Spots, x: string, post: string, c: string) {
    && p.val < p.post <= p.end <= |t| && p.post == p.val + |x| + 2 && StrOk(x) && AllWs(post)
    && t[p.val..] == "\"" + x + "\"" + (post + c) && (post + c)[|post|..] == c && p.end == p.post + |post|
    && c != [] && (c[0] == ',' || c[0] == '}')
  }

  // A string that is not followed by a colon is no key.
  lemma NoColon(ws: string, x: string, post: string, c: string)
    requires AllWs(ws) && StrOk(x) && AllWs(post) && c != [] && (c[0] == ',' || c[0] == '}')
    ensures Junk(ws + ("\"" + x + "\"" + (post + c)))
  {
    var s := "\"" + x + "\"" + (post + c);
    assert s[1..] == x + "\"" + (post + c);
    ScanWsOfPrint(ws, s);
    ScanStrOfPrint(x, post + c);
    ScanWsOfPrint(post, c);
    hide ScanWs, ScanStr, StrOk, AllWs, ParseValue;
    assert ParseMember(ws + s) == None;
  }

  lemma LexInString(before: string, x: string, w: string)
    requires Lex(Out, before) == Out
    ensures Lex(Out, before + "\"" + x + w) == Lex(Lex(In, x), w)
  {
    LexOne(Out, '"');
    hide Lex;
    LexAppend(Out, before + "\"" + x, w);
    LexAppend(Out, before + "\"", x);
    LexAppend(Out, before, "\"");
  }

  // What is left from a place in the string's content.
  lemma LeftOfString(before: string, x: string, k: nat, post: string, c: string)
    requires StrOk(x) && k <= |x| && AllWs(post) && c != [] && (c[0] == ',' || c[0] == '}')
    requires Lex(Out, before) == Out && Lex(Out, before + "\"" + x[..k] + (x[k..] + "\"" + (post + c))) == Out
    ensures var w := x[k..] + "\"" + (post + c); Junk(w) || Flipped(w)
  {
    var w := x[k..] + "\"" + (post + c);
    hide StrOk, Junk, Lex, AllWs;
    LexContent(x, k);
    LexInString(before, x[..k], w);
    if Lex(In, x[..k]) == In {
      NotBoth(w);
    } else if x[k] == '"' {
      LeftOfEscaped(x, k, post + c);
      NoColon("", x[k + 1..], post, c) by { assert AllWs("") by { NothingIsWs(); } }
    } else {
      assert w[0] == x[k];
      AfterEscape(w);
    }
  }

  lemma NothingIsWs()
    ensures AllWs("")
  {
  }

  lemma LeftOfEscaped(x: string, k: nat, rest: string)
    requires k < |x| && x[k] == '"'
    ensures x[k..] + "\"" + rest == "" + ("\"" + x[k + 1..] + "\"" + rest)
  {
  }

  // Read from after an escaping backslash to outside, but not from outside, unless it is a quote that
  // is escaped.
  lemma AfterEscape(w: string)
    requires w != [] && w[0] != '"' && Lex(Esc, w) == Out
    ensures Flipped(w)
  {
    NotBoth(w[1..]);
    LexBad(w[1..]);
  }

  lemma StringAtSpots(t: string, o: string, m: Member, c: string, p: Spots)
    requires WfMember(m) && m.val.Str? && Laid(t, o, m, c, p) && c != [] && (c[0] == ',' || c[0] == '}')
    ensures StringAt(t, p, m.val.text, m.post, c)
  {
    assert Print(m.val) == "\"" + m.val.text + "\"";
    hide Print, StrOk, AllWs;
    assert t[p.val..] == t[p.val..p.post] + (t[p.post..p.end] + t[p.end..]);
  }

  // White space in t from lo to hi, as a piece of it.
  lemma WsSlice(t: string, lo: nat, hi: nat)
    requires lo <= hi <= |t| && forall j | lo <= j < hi :: IsWs(t[j])
    ensures AllWs(t[lo..hi]) && t[lo..] == t[lo..hi] + t[hi..]
  {
    hide IsWs;
  }

  lemma SplitString(t: string, p: Spots, x: string, post: string, c: string, e: nat)
    requires StringAt(t, p, x, post, c) && p.val < e < p.post
    ensures var k := e - p.val - 1;
            t == t[..p.val] + "\"" + x[..k] + (x[k..] + "\"" + (post + c)) && t[e..] == x[k..] + "\"" + (post + c)
  {
    var k := e - p.val - 1;
    hide StrOk, AllWs;
    var y := "\"" + x[..k];
    assert x == x[..k] + x[k..];
    assert t[p.val..] == y + (x[k..] + "\"" + (post + c));
    assert t == t[..p.val] + t[p.val..];
    assert t[..p.val] + y == t[..p.val] + "\"" + x[..k];
    assert t[e..] == t[p.val..][|y|..];
  }

  // What is left of a member with a string from a place before the string's end.
  lemma LeftOfMember(t: string, p: Spots, x: string, post: string, c: string, e: nat)
    requires MemberAt(t, p) && StringAt(t, p, x, post, c) && p.colon < e < p.post
    requires Lex(Out, t) == Out && Lex(Out, t[..p.val]) == Out
    ensures Junk(t[e..]) || Flipped(t[e..])
  {
    hide Lex, Junk, NoMember, StrOk, Inside, After, AllWs;
    if e < p.mid {
      NotWsColon();
      assert forall j | p.colon <= j < p.mid - 1 :: t[j] != '"' && t[j] != '}';
      hide IsWs;
      JunkFrom(t, e, p.mid - 1);
    } else if e <= p.val {
      assert AllWs(t[e..p.val]) && t[e..] == t[e..p.val] + t[p.val..] by { WsSlice(t, e, p.val); }
      NoColon(t[e..p.val], x, post, c);
    } else {
      SplitString(t, p, x, post, c, e);
      LeftOfString(t[..p.val], x, e - p.val - 1, post, c);
    }
  }

  lemma NotWsColon()
    ensures !IsWs(':') && !IsWs(',') && !IsWs('}')
  {
  }

  // The same for any number or string.
  lemma LeftBefore(t: string, o: string, m: Member, c: string, p: Spots, e: nat)
    requires WfMember(m) && Laid(t, o, m, c, p) && MemberAt(t, p) && Scalar(m.val) && p.colon < e < p.post
    requires t == o + PrintMember(m) + c && c != [] && (c[0] == ',' || c[0] == '}')
    requires Lex(Out, t) == Out && Lex(Out, o) == Out
    ensures Junk(t[e..]) || Flipped(t[e..])
  {
    hide SpotsOf, WfMember, Laid, MemberAt, Lex, PrintMember, Junk;
    if m.val.Prim? {
      Region(t, o, m, c, p);
      assert p.post - 1 < p.end by { assert MemberAt(t, p); EndIsBehind(t, p); }
      hide IsWs;
      JunkFrom(t, e, p.post - 1);
    } else {
      LexToValue(t, o, m, c, p);
      StringAtSpots(t, o, m, c, p);
      LeftOfMember(t, p, m.val.text, m.post, c, e);
    }
  }

  lemma EndIsBehind(t: string, p: Spots)
    requires MemberAt(t, p)
    ensures p.val < p.post <= p.end < |t|
  {
  }

  // Behind the value there is just white space.
  lemma LeftBehind(t: string, p: Spots, e: nat)
    requires MemberAt(t, p) && p.post <= e < p.end
    ensures Rubbish(t[e..])
  {
    NotWsColon();
    assert IsWs(t[e]) && t[e..][0] == t[e];
    assert forall j | p.post <= j < p.end :: t[j] != '"';
    hide IsWs, Inside, After;
    NoMemberFrom(t, e, p.end);
    NoMembers(t[e..]);
    hide ParseMembers, NoMember;
  }

  lemma {:induction false} NoMemberFrom(t: string, e: nat, p: nat)
    requires e <= p < |t| && !IsWs(t[p]) && forall j | e <= j <= p :: t[j] != '"'
    ensures NoMember(t[e..])
    decreases p - e
  {
    if IsWs(t[e]) {
      NoMemberFrom(t, e + 1, p);
      assert t[e..][1..] == t[e + 1..];
    }
  }

  lemma LeftAnywhere(t: string, o: string, m: Member, c: string, p: Spots, e: nat)
    requires WfMember(m) && Laid(t, o, m, c, p) && MemberAt(t, p) && Scalar(m.val) && p.colon < e < p.end
    requires t == o + PrintMember(m) + c && c != [] && (c[0] == ',' || c[0] == '}')
    requires Lex(Out, t) == Out && Lex(Out, o) == Out
    ensures Rubbish(t[e..]) || Flipped(t[e..])
  {
    hide SpotsOf, WfMember, Laid, MemberAt, Lex, PrintMember, Rubbish, Junk, Flipped;
    EndIsBehind(t, p);
    if e < p.post {
      LeftBefore(t, o, m, c, p, e);
      if Junk(t[e..]) { JunkIsRubbish(t[e..]); }
    } else {
      LeftBehind(t, p, e);
    }
  }

  // With other white space than the cut skips, a check fails or what is left of the member starts no
  // member or ends inside a string.
  lemma ScalarSpoils(t: string, o: string, m: Member, c: string, p: Spots)
    requires WfMember(m) && Laid(t, o, m, c, p) && MemberAt(t, p) && !CuttableAt(t, p) && t[..p.open] == o
             && Scalar(m.val)
    requires t == o + PrintMember(m) + c && c != [] && (c[0] == ',' || c[0] == '}')
    requires Lex(Out, t) == Out && Lex(Out, o) == Out
    ensures Spoilt(CutText(t, p.key, p.colon - 1, p.post - p.val), o)
  {
    EndIsBehind(t, p);
    hide *;
    CutLeaves(t, p, o);
    if CutText(t, p.key, p.colon - 1, p.post - p.val).Some? {
      LeavesUnfolded(t, p, o);
      LeftAnywhere(t, o, m, c, p, EndAt(t, p));
      LeftIsSpoilt(t, o, EndAt(t, p));
    } else {
      NothingSpoilt(o);
    }
  }

  lemma LeavesUnfolded(t: string, p: Spots, o: string)
    requires 2 <= p.key < p.colon && p.val <= p.post && p.colon + 1 + p.post - p.val <= |t| && o != []
             && LeavesFrom(t, p, o)
    ensures 0 <= EndAt(t, p) <= |t| && p.colon < EndAt(t, p) < p.end
    ensures CutText(t, p.key, p.colon - 1, p.post - p.val) == Some(LeftFrom(t, o, EndAt(t, p)))
  {
    hide EndAt, CutText, LeftFrom;
  }

  lemma NothingSpoilt(o: string)
    ensures Spoilt(None, o)
  {
  }

  // ----- Setting a number or a string: right exactly when the white space is what the cut skips ---

  lemma AroundMember(left: string, ms: seq<Member>, i: nat, right: string)
    requires i < |ms|
    ensures Around(left, ms, "", right) == Opening(left, ms, i) + PrintMember(ms[i]) + Closing(ms, i, right)
  {
    AroundIsPrint(left, ms, "", right);
    ObjectAround(ms, i);
    hide PrintMember, PrintMembers, Lead, Print, Around;
    AroundMiddle(left, Lead(ms[..i]), PrintMember(ms[i]), if i + 1 == |ms| then "" else "," + PrintMembers(ms[i + 1..]),
                 right);
  }

  // Member i as it lies in the text.
  predicate InSpots(t: string, o: string, m: Member, c: string, p: Spots) {
    && WfMember(m) && Laid(t, o, m, c, p) && MemberAt(t, p) && t[..p.open] == o && o != []
    && (CuttableAt(t, p) <==> Cuttable(m)) && c != [] && (c[0] == ',' || c[0] == '}')
  }

  lemma LaidInSpots(t: string, o: string, m: Member, c: string, p: Spots)
    requires WfMember(m) && Laid(t, o, m, c, p)
    requires o != [] && (o[|o| - 1] == '{' || o[|o| - 1] == ',') && c != [] && (c[0] == ',' || c[0] == '}')
    ensures InSpots(t, o, m, c, p)
  {
    LaidMember(t, o, m, c, p);
    LaidCuttable(t, o, m, c, p);
    hide Laid, WfMember, MemberAt, CuttableAt, Cuttable;
  }

  lemma MemberInText(left: string, ms: seq<Member>, i: nat, right: string)
    requires i < |ms| && WfMembers(ms)
    ensures InSpots(Around(left, ms, "", right), Opening(left, ms, i), ms[i], Closing(ms, i, right),
                    SpotsOf(Opening(left, ms, i), ms[i]))
  {
    var o, c := Opening(left, ms, i), Closing(ms, i, right);
    assert ms[i] in ms;
    LastOfOpening(left, ms, i);
    StartsOfClosing(ms, i, right);
    AroundMember(left, ms, i, right);
    hide *;
    LaidOut(o, ms[i], c);
    LaidInSpots(Around(left, ms, "", right), o, ms[i], c, SpotsOf(o, ms[i]));
  }

  lemma LaidOut(o: string, m: Member, c: string)
    ensures Laid(o + PrintMember(m) + c, o, m, c, SpotsOf(o, m))
  {
    AtSpots(o, m, c);
    hide PrintMember, Print;
  }

  lemma SpotsAreKeyAt(left: string, ms: seq<Member>, i: nat)
    requires i < |ms|
    ensures var p := SpotsOf(Opening(left, ms, i), ms[i]);
            && p.key == KeyAt(left, ms, i) && p.colon - 1 == p.key + |ms[i].key| && p.post - p.val == ValLen(ms, i)
            && p.open == |Opening(left, ms, i)|
  {
    hide Opening, Print;
  }

  lemma LeadAppend(a: seq<Member>, m: Member)
    ensures Lead(a + [m]) == Lead(a) + PrintMember(m) + ","
  {
    LeadIsPrint(a + [m]);
    PrintMembersSplit(a + [m], |a|);
    assert (a + [m])[..|a|] == a && (a + [m])[|a|..] == [m];
    PrintMembersCons(m, []);
    hide Lead, PrintMembers, PrintMember;
    Assoc(Lead(a), PrintMember(m), ",");
  }

  lemma JoinRubbish(left: string, lead: string, val: string, w: string)
    ensures (left + "{" + lead) + "" + val + "," + w == left + ("{" + (lead + val + ",") + w)
  {
  }

  lemma RubbishSpoils(d: Doc, at: Place, i: nat, m: Member, w: string)
    requires WfDoc(d) && Holds(d, at) && i < |ObjAt(d, at).members| && WfMember(m) && Rubbish(w)
    ensures var o := Opening(LeftOf(d, at), ObjAt(d, at).members, i);
            0 < |o| < |o + w| && Parse(InsText(o + w, |o|, PrintMember(m))) == None
  {
    var ms := ObjAt(d, at).members;
    var a, o := ms[..i] + [m], Opening(LeftOf(d, at), ms, i);
    ObjectIsWf(d, at);
    ObjectFails(a, w);
    DocFails(d, at, "{" + Lead(a) + w);
    InsBetween(o, w, PrintMember(m));
    LeadAppend(ms[..i], m);
    hide Lead, PrintMember, ParseValue, Parse, NoMember, LeftOf, WfDoc, WfMember, ObjAt, InsText;
    JoinRubbish(LeftOf(d, at), Lead(ms[..i]), PrintMember(m), w);
  }

  lemma LexToValue(t: string, o: string, m: Member, c: string, p: Spots)
    requires WfMember(m) && Laid(t, o, m, c, p) && Lex(Out, o) == Out && t == o + PrintMember(m) + c
    ensures Lex(Out, t[..p.val]) == Out
  {
    PrintHead(m);
    hide Print, PrintMember, Lex;
    var h, rest := HeadOf(m), Print(m.val) + (m.post + c);
    JoinMember(o, h, Print(m.val), m.post, c);
    assert |o + h| == p.val by { HeadSpots(o, m, rest); }
    assert t[..p.val] == o + h;
    LexHead(m.pre, m.key, m.colon, m.mid);
    LexJoin(o, h);
  }

  lemma CutSpoils(t: string, left: string, ms: seq<Member>, i: nat, right: string)
    requires i < |ms| && WfMembers(ms) && Scalar(ms[i].val) && !Cuttable(ms[i]) && t == Around(left, ms, "", right)
    requires Lex(Out, t) == Out && Lex(Out, Opening(left, ms, i)) == Out
    ensures var k, n := KeyAt(left, ms, i), ValLen(ms, i);
            2 <= k && k + |ms[i].key| + 2 + n <= |t| ==>
              Spoilt(CutText(t, k, k + |ms[i].key|, n), Opening(left, ms, i))
  {
    hide *;
    var o, c, p, m := Opening(left, ms, i), Closing(ms, i, right), SpotsOf(Opening(left, ms, i), ms[i]), ms[i];
    MemberInText(left, ms, i, right);
    SpotsAreKeyAt(left, ms, i);
    AroundMember(left, ms, i, right);
    InSpotsIs(t, o, m, c, p);
    ScalarSpoils(t, o, m, c, p);
  }

  lemma InSpotsIs(t: string, o: string, m: Member, c: string, p: Spots)
    requires InSpots(t, o, m, c, p)
    ensures WfMember(m) && Laid(t, o, m, c, p) && MemberAt(t, p) && t[..p.open] == o && o != []
    ensures (CuttableAt(t, p) <==> Cuttable(m)) && c != [] && (c[0] == ',' || c[0] == '}')
  {
  }

  // Up to any member a document is read from outside to outside.
  lemma {:induction false} LexLead(ms: seq<Member>)
    requires WfMembers(ms)
    ensures Lex(Out, Lead(ms)) == Out
  {
    hide PrintMember, WfMember;
    if ms != [] {
      assert ms[0] in ms;
      LexMember(ms[0]);
      LexLead(ms[1..]);
      LexComma(PrintMember(ms[0]), Lead(ms[1..]));
    }
  }

  lemma LexOpening(d: Doc, at: Place, i: nat)
    requires WfDoc(d) && Holds(d, at) && i < |ObjAt(d, at).members|
    ensures Lex(Out, Opening(LeftOf(d, at), ObjAt(d, at).members, i)) == Out
  {
    var l, ms := LeftOf(d, at), ObjAt(d, at).members;
    ObjectIsWf(d, at);
    LexLeft(d, at);
    LexLead(ms[..i]);
    hide LeftOf, ObjAt, WfMember, Lex, Lead;
    LexBrace(l, Lead(ms[..i]));
  }

  lemma LexBrace(a: string, b: string)
    requires Lex(Out, a) == Out && Lex(Out, b) == Out
    ensures Lex(Out, a + "{" + b) == Out
  {
    LexMark('{');
    LexJoin(a, "{");
    LexJoin(a + "{", b);
    hide Lex;
  }

  lemma LexLeft(d: Doc, at: Place)
    requires WfDoc(d) && Holds(d, at)
    ensures Lex(Out, LeftOf(d, at)) == Out
  {
    LexWs(d.pre);
    if at.Within? {
      var os := d.root.members;
      var m := os[at.j];
      assert m in os && WfMember(m);
      LexLead(os[..at.j]);
      LexHead(m.pre, m.key, m.colon, m.mid);
      hide Lex, Lead, WfMember;
      LexBrace(d.pre, Lead(os[..at.j]));
      LexJoin(d.pre + "{" + Lead(os[..at.j]), HeadOf(m));
    }
  }

  // A member inserted does not change where the rest of the text is inside strings.
  lemma LexOfIns(u: string, pos: nat, val: string)
    requires 1 <= pos < |u| && Lex(Out, u[..pos]) == Out && Lex(Out, val) == Out
    ensures Lex(Out, InsText(u, pos, val)) == Lex(Out, u[pos..])
  {
    var a, w := u[..pos], u[pos..];
    hide Lex;
    LexMark(',');
    LexJoin(a, val);
    LexJoin(a + val, w);
    LexJoin(a, ",");
    LexJoin(a + ",", val);
    LexJoin(a + "," + val, w);
    LexJoin(a + val, ",");
    LexJoin(a + val + ",", w);
  }

  lemma LexOfPrefix(o: string, pos: nat)
    requires Lex(Out, o) == Out && pos <= |o| <= pos + 1 && o != [] && (o[|o| - 1] == ',' || o[|o| - 1] == '{')
    ensures Lex(Out, o[..pos]) == Out
  {
    if pos < |o| {
      assert o == o[..pos] + [o[pos]];
      LexAppend(Out, o[..pos], [o[pos]]);
      LexOne(Lex(Out, o[..pos]), o[pos]);
    } else {
      assert o[..pos] == o;
    }
  }

  lemma FlippedSpoils(d: Doc, at: Place, i: nat, m: Member, u: string, pos: nat)
    requires WfDoc(d) && Holds(d, at) && i < |ObjAt(d, at).members| && WfMember(m)
    requires var o := Opening(LeftOf(d, at), ObjAt(d, at).members, i);
             1 <= pos <= |o| <= pos + 1 && pos < |u| && u[..pos] == o[..pos] && Flipped(u[pos..])
    ensures Parse(InsText(u, pos, PrintMember(m))) == None
  {
    var o := Opening(LeftOf(d, at), ObjAt(d, at).members, i);
    LastOfOpening(LeftOf(d, at), ObjAt(d, at).members, i);
    LexOpening(d, at, i);
    hide LeftOf, Opening, Ahead, ObjAt, WfDoc, WfMember, Lex, Parse, InsText, PrintMember;
    LexOfPrefix(o, pos);
    LexMember(m);
    LexOfIns(u, pos, PrintMember(m));
    if Parse(InsText(u, pos, PrintMember(m))).Some? {
      ParsedIsOut(InsText(u, pos, PrintMember(m)));
    }
  }

  lemma SpoiltText(d: Doc, at: Place, i: nat, m: Member, r: Option<(string, nat)>)
    requires WfDoc(d) && Holds(d, at) && i < |ObjAt(d, at).members| && WfMember(m)
    requires Spoilt(r, Opening(LeftOf(d, at), ObjAt(d, at).members, i))
    ensures var u := InsAfter(r, PrintMember(m)); u.Some? ==> Parse(u.value) == None
  {
    if r.Some? {
      var o := Opening(LeftOf(d, at), ObjAt(d, at).members, i);
      var (u, pos) := r.value;
      hide LeftOf, Opening, ObjAt, Parse, PrintMember, InsText, WfDoc, WfMember, Holds, Rubbish, Flipped;
      if 1 <= pos < |u| {
        if Flipped(u[pos..]) {
          FlippedSpoils(d, at, i, m, u, pos);
        } else {
          assert o[..pos] == o && u == o + u[pos..];
          RubbishSpoils(d, at, i, m, u[pos..]);
        }
      }
    }
  }

  lemma SetsUnfolded(t: string, left: string, ms: seq<Member>, i: nat, m: Member, u: string)
    requires i < |ms| && Sets(t, left, ms, i, m, u)
    ensures var k, n := KeyAt(left, ms, i), ValLen(ms, i);
            && 2 <= k && k + |ms[i].key| + 2 + n <= |t|
            && InsAfter(CutText(t, k, k + |ms[i].key|, n), PrintMember(m)) == Some(u)
  {
    hide KeyAt, ValLen, CutText, InsAfter, PrintMember;
  }

  lemma PlainMember(ms: seq<Member>, i: nat, v: Value)
    requires WfMembers(ms) && i < |ms| && Wf(v)
    ensures WfMember(Plain(ms[i].key, v))
  {
    assert ms[i] in ms && WfMember(ms[i]);
    PlainIsWf(ms[i].key, v);
  }

  lemma LexDoc(d: Doc)
    requires WfDoc(d)
    ensures Lex(Out, PrintDoc(d)) == Out
  {
    ParseIffPrint(PrintDoc(d), d);
    hide WfDoc, PrintDoc, Parse, Lex;
    ParsedIsOut(PrintDoc(d));
  }

  lemma SettingSpoils(d: Doc, at: Place, i: nat, v: Value, u: string)
    requires WfDoc(d) && Holds(d, at) && i < |ObjAt(d, at).members| && Wf(v)
    requires Scalar(ObjAt(d, at).members[i].val) && !Cuttable(ObjAt(d, at).members[i])
    requires Sets(PrintDoc(d), LeftOf(d, at), ObjAt(d, at).members, i, Plain(ObjAt(d, at).members[i].key, v), u)
    ensures Parse(u) == None
  {
    hide *;
    var ms, left := ObjAt(d, at).members, LeftOf(d, at);
    var m := Plain(ms[i].key, v);
    KeyIsInText(d, at, i);
    PlainMember(ms, i, v);
    SetsUnfolded(PrintDoc(d), left, ms, i, m, u);
    LexDoc(d);
    LexOpening(d, at, i);
    CutSpoils(PrintDoc(d), left, ms, i, RightOf(d, at));
    var k, n := KeyAt(left, ms, i), ValLen(ms, i);
    SpoiltText(d, at, i, m, CutText(PrintDoc(d), k, k + |ms[i].key|, n));
  }

  // Replacing a number or a string gives a text with the right meaning if and only if the white space
  // around it is what the cut skips.  Otherwise a check fails or the text is not JSON any more.
  lemma SettingWorksIffCuttable(d: Doc, at: Place, i: nat, v: Value)
    requires WfDoc(d) && Holds(d, at) && i < |ObjAt(d, at).members| && Wf(v) && Scalar(ObjAt(d, at).members[i].val)
    ensures var m := ObjAt(d, at).members[i];
            Cuttable(m) <==> exists u :: Sets(PrintDoc(d), LeftOf(d, at), ObjAt(d, at).members, i, Plain(m.key, v), u)
                                      && MeansUpdate(u, Abs(d.root), at, i, Abs(v))
  {
    var ms := ObjAt(d, at).members;
    if Cuttable(ms[i]) {
      SettingReplacesValue(d, at, i, v);
    } else {
      forall u | Sets(PrintDoc(d), LeftOf(d, at), ms, i, Plain(ms[i].key, v), u)
        ensures !MeansUpdate(u, Abs(d.root), at, i, Abs(v))
      {
        SettingSpoils(d, at, i, v, u);
        hide Parse;
      }
    }
    hide WfDoc, Sets, MeansUpdate, PrintDoc, Setting, ObjAt, Holds, LeftOf, Cuttable, Abs, Wf;
  }

  // ----- A space before the colon -----------------------------------------------------------------

  lemma CutOfSpaced()
    ensures CutText("{\"a\" :1}", 2, 3, 1) == Some(("{1}", 1))
  {
    var t := "{\"a\" :1}";
    assert BackOver(t, 0) == 0 && OverInside(t, 5) == 5 && OverAfter(t, 6) == 6;
    hide BackOver, OverInside, OverAfter, Before, Inside, After;
    assert t[6] == '1' && t[..1] == "{" && t[6..] == "1}";
    assert t[..1] + t[6..] == "{1}";
  }

  lemma SpacedMember()
    ensures var m := Member("", "a", " ", "", Prim("1"), ""); WfMember(m) && PrintMember(m) == "\"a\" :1"
  {
    var m := Member("", "a", " ", "", Prim("1"), "");
    ShortMember("a", "1");
    assert WfMember(m);
    hide WfMember, Wf, PrimOk, StrOk;
    assert MemberBody(m) == "\"" + "a" + "\"" + " " + ":" + "" + "1" + "" == "\"a\" :1";
  }

  lemma OneMember(m: Member)
    requires WfMember(m)
    ensures var d := Doc("", Obj([m], ""), ""); WfDoc(d) && PrintDoc(d) == "{" + PrintMember(m) + "}"
  {
    PrintMembersCons(m, []);
    assert [m] + [] == [m];
    BareText([m]);
    hide PrintMembers, PrintDoc, WfMember;
  }

  lemma SpacedIsWf()
    ensures var d := Doc("", Obj([Member("", "a", " ", "", Prim("1"), "")], ""), "");
            WfDoc(d)
            && PrintDoc(d) == "{\"a\" :1}"
  {
    SpacedMember();
    OneMember(Member("", "a", " ", "", Prim("1"), ""));
    hide *;
    assert "{" + "\"a\" :1" + "}" == "{\"a\" :1}";
  }

  // A member and then something that is none.
  lemma NoneAfterComma(m: Member, x: string)
    requires WfMember(m) && NoMember(x)
    ensures Parse("{" + (PrintMember(m) + ",") + x) == None
  {
    LeadFollows(m);
    NoMembers(x);
    hide *;
    ObjectFails([m], x);
    RootFails("", "{" + Lead([m]) + x);
    assert "" + ("{" + Lead([m]) + x) == "{" + Lead([m]) + x;
  }

  lemma NumberAfterComma()
    ensures Parse("{\"a\":2,1}") == None
  {
    ShortMember("a", "2");
    assert NoMember("1}");
    hide *;
    NoneAfterComma(Plain("a", Prim("2")), "1}");
    assert "{" + (("\"" + "a" + "\":" + "2") + ",") + "1}" == "{\"a\":2,1}";
  }

  lemma LeadFollows(m: Member)
    ensures Lead([m]) == PrintMember(m) + ","
  {
    LeadIsPrint([m]);
    PrintMembersCons(m, []);
    assert [m] + [] == [m];
    hide PrintMembers, PrintMember, Lead;
  }

  lemma InsInRest()
    ensures InsText("{1}", 1, "\"a\":2") == "{\"a\":2,1}"
  {
    InsBetween("{", "1}", "\"a\":2");
    hide *;
    assert "{" + "1}" == "{1}";
    assert "{" + "" + "\"a\":2" + "," + "1}" == "{\"a\":2,1}";
  }

  lemma SetOfSpaced()
    ensures SetText("{\"a\" :1}", 2, 3, 1, "\"a\":2") == Some("{\"a\":2,1}")
  {
    CutOfSpaced();
    InsInRest();
    hide InsText, CutText;
  }

  // {"a" :1}: setting a to 2 makes a text that does not parse.
  lemma SettingFails()
    ensures var d := Doc("", Obj([Member("", "a", " ", "", Prim("1"), "")], ""), "");
            WfDoc(d)
            && PrintDoc(d) == "{\"a\" :1}"
    ensures SetText("{\"a\" :1}", 2, 3, 1, PrintMember(Plain("a", Prim("2")))) == Some("{\"a\":2,1}")
            && Parse("{\"a\":2,1}") == None
  {
    hide SetText, Parse, PrintDoc, WfDoc, PrintMember, WfMember;
    SpacedIsWf();
    NumberAfterComma();
    ShortMember("a", "2");
    SetOfSpaced();
    assert "\"" + "a" + "\":" + "2" == "\"a\":2";
  }
}
