/** Creating a parameter, and removing it again. */
module CfgCreate {
  import opened Wrappers
  import opened JsonText
  import opened CfgText
  import opened CfgSet
  import opened CfgDoc
  import opened CfgExact

  function With(ms: seq<Member>, i: nat, m: Member): seq<Member>
    requires i <= |ms|
  {
    ms[..i] + [m] + ms[i..]
  }

  function InsertAt(d: Doc, at: Place, i: nat): nat
    requires Holds(d, at) && i <= |ObjAt(d, at).members|
  {
    InsAt(LeftOf(d, at), ObjAt(d, at).members[..i], ObjAt(d, at).members[i..])
  }

  function Inserted(d: Doc, at: Place, i: nat, m: Member): Doc
    requires Holds(d, at) && i <= |ObjAt(d, at).members|
  {
    WithObj(d, at, Obj(With(ObjAt(d, at).members, i, m), ""))
  }

  // The text means this object with one more member at position i.
  predicate MeansInsert(t: string, j: Json, at: Place, i: nat, m: (string, Json)) {
    var js := MembersAt(j, at);
    && j.JObj? && (at.Within? ==> at.j < |j.members|)
    && i <= |js|
    && Meaning(t) == Some(WithMembers(j, at, js[..i] + [m] + js[i..]))
  }

  // ----- Inserting where an object's members are, or it is empty ----------------------------------

  lemma InsertedText(d: Doc, at: Place, i: nat, m: Member)
    requires WfDoc(d) && Holds(d, at) && i <= |ObjAt(d, at).members| && ObjAt(d, at).ws == ""
    ensures 1 <= InsertAt(d, at, i) < |PrintDoc(d)|
    ensures InsText(PrintDoc(d), InsertAt(d, at, i), PrintMember(m)) == PrintDoc(Inserted(d, at, i, m))
  {
    var o, left, right := ObjAt(d, at), LeftOf(d, at), RightOf(d, at);
    var a, b := o.members[..i], o.members[i..];
    assert a + b == o.members && With(o.members, i, m) == a + [m] + b && o == Obj(o.members, "");
    ObjectIsWf(d, at);
    hide PrintMember, PrintDoc, LeftOf, RightOf, Holds, WfDoc, ObjAt, InsText, Around, InsAt, WithObj, WfMember;
    PrintAround(d, at, o.members, "");
    PrintAround(d, at, a + [m] + b, "");
    InsertAddsMember(left, a, b, m, right);
  }

  lemma WithIsWf(ms: seq<Member>, i: nat, m: Member)
    requires WfMembers(ms) && WfMember(m) && i <= |ms|
    ensures WfMembers(With(ms, i, m))
  {
    hide WfMember;
  }

  lemma InsertedMeans(d: Doc, at: Place, i: nat, m: Member)
    requires WfDoc(d) && Holds(d, at) && i <= |ObjAt(d, at).members| && WfMember(m)
    ensures WfDoc(Inserted(d, at, i, m)) && Parse(PrintDoc(Inserted(d, at, i, m))) == Some(Inserted(d, at, i, m))
    ensures MeansInsert(PrintDoc(Inserted(d, at, i, m)), Abs(d.root), at, i, (m.key, Abs(m.val)))
  {
    var ms := ObjAt(d, at).members;
    ObjectIsWf(d, at);
    WithIsWf(ms, i, m);
    UpdatedIsWf(d, at, With(ms, i, m), "");
    ParseIffPrint(PrintDoc(Inserted(d, at, i, m)), Inserted(d, at, i, m));
    AbsWithObj(d, at, With(ms, i, m), "");
    AbsOfWith(ms, i, m);
    hide WfDoc, PrintDoc, Parse, With, AbsMembers, Abs, WithObj, ObjAt, WfMember, MembersAt;
  }

  lemma SplitOfWith(ms: seq<Member>, i: nat, m: Member)
    requires i <= |ms|
    ensures var w := With(ms, i, m); w[..i] == ms[..i] && w[i] == m && w[i + 1..] == ms[i..]
    ensures ms == ms[..i] + ms[i..]
  {
  }

  lemma AbsOfWith(ms: seq<Member>, i: nat, m: Member)
    requires i <= |ms|
    ensures var js := AbsMembers(ms);
            AbsMembers(With(ms, i, m)) == js[..i] + [(m.key, Abs(m.val))] + js[i..]
  {
    var a, b, w := ms[..i], ms[i..], With(ms, i, m);
    SplitOfWith(ms, i, m);
    hide With;
    AbsOfAppend(a, b);
    AbsOfSplit(w, i);
    hide AbsMembers, Abs;
    SplitAt(AbsMembers(a), AbsMembers(b));
  }

  lemma SplitAt<T>(x: seq<T>, y: seq<T>)
    ensures (x + y)[..|x|] == x && (x + y)[|x|..] == y
  {
  }

  // ----- Removing what was inserted ---------------------------------------------------------------

  lemma PrintIsInjective(d: Doc, e: Doc)
    requires WfDoc(d) && WfDoc(e) && PrintDoc(d) == PrintDoc(e)
    ensures d == e
  {
    ParseIffPrint(PrintDoc(d), d);
    ParseIffPrint(PrintDoc(d), e);
    hide WfDoc, PrintDoc, Parse;
  }

  lemma TrimTwice(ms: seq<Member>, i: nat)
    requires i <= |ms|
    ensures ms[..i] + TrimFirst(ms[i..]) == ms <==> (i == |ms| || TrimAfter(ms[i].pre) == ms[i].pre)
  {
    hide TrimAfter;
    if i < |ms| {
      var us := ms[..i] + TrimFirst(ms[i..]);
      assert us[i] == ms[i].(pre := TrimAfter(ms[i].pre));
      if TrimAfter(ms[i].pre) == ms[i].pre {
        assert TrimFirst(ms[i..]) == ms[i..];
      }
    }
  }

  // The cut of member i of the object after left, where it stands in the text u, leaves t at pos.
  predicate Cuts(u: string, left: string, ms: seq<Member>, i: nat, t: string, pos: nat)
    requires i < |ms|
  {
    var k, n := KeyAt(left, ms, i), ValLen(ms, i);
    && 2 <= k && k + |ms[i].key| + 2 + n <= |u|
    && CutText(u, k, k + |ms[i].key|, n) == Some((t, pos))
  }

  lemma CutsMember(left: string, ms: seq<Member>, i: nat, right: string)
    requires i < |ms| && WfMembers(ms) && Cuttable(ms[i])
    ensures Cuts(Around(left, ms, "", right), left, ms, i, Around(left, Removed(ms, i), "", right), CutAt(left, ms, i))
  {
    CutRemovesMember(left, ms, i, right);
    hide Around, CutText, KeyAt, ValLen, Removed, CutAt, Cuttable, WfMembers;
  }

  lemma CutInserted(d: Doc, at: Place, i: nat, m: Member)
    requires WfDoc(d) && Holds(d, at) && i <= |ObjAt(d, at).members| && WfMember(m) && Cuttable(m)
    ensures var ms := With(ObjAt(d, at).members, i, m);
            Cuts(PrintDoc(Inserted(d, at, i, m)), LeftOf(d, at), ms, i,
                 PrintDoc(WithObj(d, at, Obj(Removed(ms, i), ""))), CutAt(LeftOf(d, at), ms, i))
  {
    var ms := With(ObjAt(d, at).members, i, m);
    ObjectIsWf(d, at);
    WithIsWf(ObjAt(d, at).members, i, m);
    assert ms[i] == m;
    assert Inserted(d, at, i, m) == WithObj(d, at, Obj(ms, ""));
    hide *;
    CutsMember(LeftOf(d, at), ms, i, RightOf(d, at));
    PrintAround(d, at, ms, "");
    PrintAround(d, at, Removed(ms, i), "");
  }

  lemma RemovedFromWith(d: Doc, at: Place, i: nat, m: Member)
    requires WfDoc(d) && Holds(d, at) && i <= |ObjAt(d, at).members| && ObjAt(d, at).ws == ""
    ensures var ms, w := ObjAt(d, at).members, With(ObjAt(d, at).members, i, m);
            && (PrintDoc(WithObj(d, at, Obj(Removed(w, i), ""))) == PrintDoc(d) <==>
                i == |ms| || TrimAfter(ms[i].pre) == ms[i].pre)
            && CutAt(LeftOf(d, at), w, i) == InsertAt(d, at, i)
  {
    var ms, w, left := ObjAt(d, at).members, With(ObjAt(d, at).members, i, m), LeftOf(d, at);
    var rs := ms[..i] + TrimFirst(ms[i..]);
    assert w[..i] == ms[..i] && w[i + 1..] == ms[i..];
    assert Removed(w, i) == rs;
    ObjectIsWf(d, at);
    TrimTwice(ms, i);
    TrimmedAreWf(ms[i..]);
    UpdatedIsWf(d, at, rs, "");
    assert CutAt(left, w, i) == InsertAt(d, at, i);
    var e := WithObj(d, at, Obj(rs, ""));
    assert ObjAt(e, at).members == rs by { hide TrimFirst, Removed; }
    hide TrimFirst, Removed, PrintDoc, WfDoc, WfMember, InsAt, CutAt, TrimAfter, LeftOf, ObjAt, WithObj;
    if PrintDoc(e) == PrintDoc(d) {
      PrintIsInjective(d, e);
    }
  }

  // Inserting a member and then removing it restores the text, unless the members after it start
  // with space or line feeds, which the cut takes along.
  lemma InsertThenRemove(d: Doc, at: Place, i: nat, m: Member)
    requires WfDoc(d) && Holds(d, at) && i <= |ObjAt(d, at).members| && ObjAt(d, at).ws == ""
    requires WfMember(m) && Cuttable(m)
    ensures var ms, t, pos := ObjAt(d, at).members, PrintDoc(d), InsertAt(d, at, i);
            && 1 <= pos < |t|
            && exists t' :: Cuts(InsText(t, pos, PrintMember(m)), LeftOf(d, at), With(ms, i, m), i, t', pos)
                         && (t' == t <==> i == |ms| || TrimAfter(ms[i].pre) == ms[i].pre)
  {
    InsertedText(d, at, i, m);
    CutInserted(d, at, i, m);
    RemovedFromWith(d, at, i, m);
    hide TrimFirst, Removed, PrintDoc, WfDoc, WfMember, InsAt, CutAt, TrimAfter, LeftOf, ObjAt, WithObj, With, Cuts,
      InsText, PrintMember, InsertAt, Inserted, Cuttable;
  }

  // ----- Creating a parameter ---------------------------------------------------------------------

  // At the end of the top level: in front of the text's last character.
  lemma LastCharacter(d: Doc)
    requires d.root.Obj? && d.post == ""
    ensures d.root.ws == "" ==> InsertAt(d, Root, |d.root.members|) == |PrintDoc(d)| - 1
    ensures |PrintDoc(d)| >= 2
  {
    var ms := d.root.members;
    assert ms[..|ms|] == ms && ms[|ms|..] == [];
    NothingPrinted();
    hide PrintMembers;
  }

  lemma TextAfterEnd(x: string, post: string, val: string)
    requires x != [] && post != [] && IsWs(post[|post| - 1])
    ensures var n := |post| - 1;
            1 <= |x| + n < |x + post|
              && InsText(x + post, |x + post| - 1, val) == x + post[..n] + (val + ("," + [post[n]]))
  {
    var n := |post| - 1;
    InsBetween(x + post[..n], [post[n]], val);
    hide InsText;
    DropLast(post);
    assert x + post == x + post[..n] + [post[n]];
    assert (x + post[..n]) + "" + val + "," + [post[n]] == (x + post[..n]) + (val + ("," + [post[n]]));
  }

  lemma RestIsLeft(e: Item, r: string)
    requires WfItem(e) && r != [] && r[0] == '"'
    ensures Parse(PrintItem(e) + r) == None
  {
    ParseOfItem(e, r);
    hide ParseItem, PrintItem, WfItem;
  }

  lemma StartOfMember(m: Member, r: string)
    requires m.pre == ""
    ensures var s := PrintMember(m) + r; s != [] && s[0] == '"'
  {
    assert "" + MemberBody(m) == MemberBody(m);
    hide MemberBody;
  }

  // The new text is no JSON.
  predicate Spoils(t: string, pos: int, val: string) {
    1 <= pos < |t| && Parse(InsText(t, pos, val)) == None
  }

  lemma SpoilsAfterEnd(pre: string, root: Value, post: string, m: Member)
    requires AllWs(pre) && Wf(root) && AllWs(post) && post != [] && m.pre == ""
    ensures var t := pre + Print(root) + post; Spoils(t, |t| - 1, PrintMember(m))
  {
    var n, x := |post| - 1, pre + Print(root);
    var e, last := Item(pre, root, post[..n]), "," + [post[n]];
    FirstOfValue(root, "");
    hide Print, PrintMember, Wf, InsText, Parse;
    assert IsWs(post[n]) && WfItem(e) && PrintItem(e) == x + post[..n];
    hide PrintItem, AllWs, WfItem;
    TextAfterEnd(x, post, PrintMember(m));
    StartOfMember(m, last);
    RestIsLeft(e, PrintMember(m) + last);
    JoinComma(PrintMember(m), [post[n]]);
  }

  lemma JoinComma(a: string, b: string)
    ensures a + "," + b == a + ("," + b)
  {
  }

  lemma CreateAfterEnd(d: Doc, m: Member)
    requires WfDoc(d) && d.post != "" && m.pre == ""
    ensures Spoils(PrintDoc(d), |PrintDoc(d)| - 1, PrintMember(m))
  {
    SpoilsAfterEnd(d.pre, d.root, d.post, m);
    hide Spoils, Wf, AllWs, PrintMember, Print;
  }

  // White space that is followed by something other than a quote.
  lemma WhiteThen(ws: string, y: string)
    requires AllWs(ws) && y != [] && !IsWs(y[0]) && y[0] != '"'
    ensures ParseMembers(ws + y) == None && ScanWs(ws + y).1 == y
  {
    ScanWsOfPrint(ws, y);
    NoMembers(ws + y);
  }

  lemma TextInSpaces(pre: string, ws: string, val: string)
    requires ws != [] && ws[|ws| - 1] != '{'
    ensures InsText(pre + "{" + ws + "}", |pre| + 1 + |ws|, val) == pre + ("{" + "" + (ws + ("," + val + "}")))
  {
    InsBetween(pre + "{" + ws, "}", val);
    LastOf(pre + "{", ws);
    hide InsText;
    assert pre + "{" + ws + "," + val + "" + "}" == pre + ("{" + "" + (ws + ("," + val + "}")));
  }

  lemma CreateInSpaces(d: Doc, m: Member)
    requires WfDoc(d) && d.root.Obj? && d.root.members == [] && d.root.ws != "" && d.post == ""
    ensures Spoils(PrintDoc(d), |PrintDoc(d)| - 1, PrintMember(m))
  {
    var ws, y := d.root.ws, "," + PrintMember(m) + "}";
    assert IsWs(ws[|ws| - 1]);
    NothingPrinted();
    assert PrintDoc(d) == d.pre + "{" + ws + "}";
    hide PrintMember, ParseMembers, ParseValue, ScanWs, Parse, InsText, PrintMembers, Lead, PrintDoc, Print;
    WhiteThen(ws, y);
    ObjectFails([], ws + y);
    DocFails(d, Root, "{" + Lead([]) + (ws + y));
    TextInSpaces(d.pre, ws, PrintMember(m));
  }

  // The top level: right if and only if the text ends with the closing brace, which does not close an
  // empty object that holds white space.
  lemma CreateWorksIff(d: Doc, key: string, v: Value)
    requires WfDoc(d) && d.root.Obj? && StrOk(key) && Wf(v)
    ensures InsertMeans(d, Root, |d.root.members|, |PrintDoc(d)| - 1, key, v) <==> d.post == "" && d.root.ws == ""
  {
    PlainIsWf(key, v);
    hide WfDoc, PrintDoc, PrintMember, Wf, StrOk, InsertMeans, Spoils;
    if d.post != "" {
      CreateAfterEnd(d, Plain(key, v));
      SpoiltMeansNothing(d, Root, |d.root.members|, |PrintDoc(d)| - 1, key, v);
    } else if d.root.ws != "" {
      ObjectIsWf(d, Root);
      CreateInSpaces(d, Plain(key, v));
      SpoiltMeansNothing(d, Root, |d.root.members|, |PrintDoc(d)| - 1, key, v);
    } else {
      LastCharacter(d);
      InsertWorks(d, Root, |d.root.members|, key, v);
    }
  }

  lemma SpacesFail()
    ensures Spoils("{ }", 2, PrintMember(Plain("a", Prim("1"))))
  {
    var d := Doc("", Obj([], " "), "");
    ShortMember("a", "1");
    assert PrintDoc(d) == "{ }";
    hide PrintMember, WfMember, PrintDoc, Spoils;
    CreateInSpaces(d, Plain("a", Prim("1")));
  }

  lemma LineFeedFails()
    ensures Spoils("{}\n", 2, PrintMember(Plain("a", Prim("1"))))
  {
    var d := Doc("", Obj([], ""), "\n");
    assert PrintDoc(d) == "{}\n";
    hide PrintMember, WfMember, PrintDoc, Spoils;
    CreateAfterEnd(d, Plain("a", Prim("1")));
  }

  // { } and {} with a line feed behind it.
  lemma CreateFails()
    ensures Spoils("{ }", 2, "\"a\":1") && InsText("{ }", 2, "\"a\":1") == "{ ,\"a\":1}"
    ensures Spoils("{}\n", 2, "\"a\":1") && InsText("{}\n", 2, "\"a\":1") == "{}\"a\":1,\n"
  {
    hide PrintMember, WfMember, Spoils, InsText;
    ShortMember("a", "1");
    assert "\"" + "a" + "\":" + "1" == "\"a\":1";
    SpacesFail();
    LineFeedFails();
    InsAtEnds();
  }

  lemma InsAtEnds()
    ensures InsText("{ }", 2, "\"a\":1") == "{ ,\"a\":1}" && InsText("{}\n", 2, "\"a\":1") == "{}\"a\":1,\n"
  {
    InsBetween("{ ", "}", "\"a\":1");
    InsBetween("{}", "\n", "\"a\":1");
    hide *;
    assert "{ " + "}" == "{ }" && "{}" + "\n" == "{}\n";
    assert "{ " + "," + "\"a\":1" + "" + "}" == "{ ,\"a\":1}";
    assert "{}" + "" + "\"a\":1" + "," + "\n" == "{}\"a\":1,\n";
  }

  // Inserting the member at pos gives a text that means the object with the member at place i.
  predicate InsertMeans(d: Doc, at: Place, i: nat, pos: int, key: string, v: Value) {
    var t := PrintDoc(d);
    1 <= pos < |t| && MeansInsert(InsText(t, pos, PrintMember(Plain(key, v))), Abs(d.root), at, i, (key, Abs(v)))
  }

  lemma SpoiltMeansNothing(d: Doc, at: Place, i: nat, pos: int, key: string, v: Value)
    requires Spoils(PrintDoc(d), pos, PrintMember(Plain(key, v)))
    ensures !InsertMeans(d, at, i, pos, key, v)
  {
    hide PrintDoc, PrintMember, Parse, InsText, Abs;
  }

  lemma InsertWorks(d: Doc, at: Place, i: nat, key: string, v: Value)
    requires WfDoc(d) && Holds(d, at) && i <= |ObjAt(d, at).members| && ObjAt(d, at).ws == "" && WfMember(Plain(key, v))
    ensures InsertMeans(d, at, i, InsertAt(d, at, i), key, v)
  {
    InsertedText(d, at, i, Plain(key, v));
    InsertedMeans(d, at, i, Plain(key, v));
    hide PrintDoc, PrintMember, Parse, InsText, Abs, WfDoc, WfMember, Holds, ObjAt, InsertAt, Inserted, MeansInsert;
  }

  // An object that is a value: right behind its brace, which is right if and only if the object does
  // not just hold white space.
  lemma LeadOfOne(m: Member)
    ensures Lead([m]) == "" + PrintMember(m) + ","
  {
    LeadAppend([], m);
    NothingPrinted();
    assert [] + [m] == [m];
  }

  lemma TextBeforeSpaces(left: string, ws: string, val: string, right: string)
    requires ws != [] && ws[0] != '}'
    ensures InsText(left + "{" + ws + "}" + right, |left| + 1, val)
            == left + ("{" + ("" + val + ",") + (ws + ("}" + right)))
  {
    var x := ws + ("}" + right);
    InsBetween(left + "{", x, val);
    hide InsText;
    assert left + "{" + ws + "}" + right == (left + "{") + x;
    assert (left + "{") + "" + val + "," + x == left + ("{" + ("" + val + ",") + x);
  }

  lemma SpoilsBeforeSpaces(t: string, left: string, ws: string, val: string, right: string)
    requires t == left + "{" + ws + "}" + right && ws != [] && ws[0] != '}' && |t| >= |left| + 2
    requires Parse(left + ("{" + ("" + val + ",") + (ws + ("}" + right)))) == None
    ensures Spoils(t, |left| + 1, val)
  {
    TextBeforeSpaces(left, ws, val, right);
    hide Parse, InsText;
  }

  lemma FirstSpoils(d: Doc, at: Place, m: Member)
    requires WfDoc(d) && Holds(d, at) && ObjAt(d, at).members == [] && ObjAt(d, at).ws != "" && WfMember(m)
    ensures Spoils(PrintDoc(d), |LeftOf(d, at)| + 1, PrintMember(m))
  {
    hide *;
    var ws, left, right := ObjAt(d, at).ws, LeftOf(d, at), RightOf(d, at);
    ObjectIsWf(d, at);
    EmptyIsAround(d, at);
    FirstOfWs(ws);
    FirstFails(d, at, m, ws, right);
    SpoilsBeforeSpaces(PrintDoc(d), left, ws, PrintMember(m), right);
  }

  lemma FirstOfWs(ws: string)
    requires AllWs(ws) && ws != []
    ensures ws[0] != '}'
  {
    assert IsWs(ws[0]);
  }

  lemma EmptyIsAround(d: Doc, at: Place)
    requires WfDoc(d) && Holds(d, at) && ObjAt(d, at).members == []
    ensures var t := LeftOf(d, at) + "{" + ObjAt(d, at).ws + "}" + RightOf(d, at);
            PrintDoc(d) == t && |t| >= |LeftOf(d, at)| + 2
  {
    var ws, left, right := ObjAt(d, at).ws, LeftOf(d, at), RightOf(d, at);
    ObjectIsWf(d, at);
    PrintAround(d, at, [], ws);
    assert ObjAt(d, at) == Obj([], ws) && Around(left, [], ws, right) == left + "{" + ws + "}" + right;
    hide PrintDoc, LeftOf, RightOf, WfDoc, ObjAt, Holds, WithObj;
  }

  lemma FirstFails(d: Doc, at: Place, m: Member, ws: string, right: string)
    requires WfDoc(d) && Holds(d, at) && WfMember(m) && AllWs(ws)
    ensures Parse(LeftOf(d, at) + ("{" + ("" + PrintMember(m) + ",") + (ws + ("}" + right)))) == None
  {
    LeadOfOne(m);
    hide PrintMember, ParseMembers, ParseValue, ScanWs, Parse, Lead, LeftOf, WfDoc, WfMember, Holds, AllWs, IsWs;
    assert !IsWs('}') by { NotWs(); }
    WhiteThen(ws, "}" + right);
    ObjectFails([m], ws + ("}" + right));
    DocFails(d, at, "{" + Lead([m]) + (ws + ("}" + right)));
  }

  lemma NotWs()
    ensures !IsWs('}')
  {
  }

  lemma CreateFirstWorksIff(d: Doc, at: Place, key: string, v: Value)
    requires WfDoc(d) && Holds(d, at) && StrOk(key) && Wf(v)
    ensures InsertMeans(d, at, 0, |LeftOf(d, at)| + 1, key, v) <==> ObjAt(d, at).ws == ""
  {
    PlainIsWf(key, v);
    hide WfDoc, PrintDoc, PrintMember, Wf, StrOk, InsertMeans, Spoils, LeftOf;
    if ObjAt(d, at).ws == "" {
      FirstPosition(d, at);
      InsertWorks(d, at, 0, key, v);
    } else {
      ObjectIsWf(d, at);
      FirstSpoils(d, at, Plain(key, v));
      SpoiltMeansNothing(d, at, 0, |LeftOf(d, at)| + 1, key, v);
    }
  }

  lemma FirstPosition(d: Doc, at: Place)
    requires Holds(d, at)
    ensures InsertAt(d, at, 0) == |LeftOf(d, at)| + 1
  {
    NothingPrinted();
    hide LeftOf, PrintMembers, Lead;
    var ms := ObjAt(d, at).members;
    assert ms[..0] == [];
  }

  // ----- Inside any value -------------------------------------------------------------------------

  // One more than where the token of the value of member j starts, a string's behind its quote.
  function FirstAt(d: Doc, j: nat): nat
    requires d.root.Obj? && j < |d.root.members|
  {
    |BeforeValue(d, j)| + (if d.root.members[j].val.Str? then 2 else 1)
  }

  // The text up to a value stays, and so does the value's first character.
  predicate KeepsFirst(t: string, before: string, y: string, u: string) {
    && |t| > |before| && t[..|before|] == before && y != [] && y[0] == t[|before|] && u == before + y
  }

  lemma InsKeeps(t: string, before: string, pos: nat, val: string) returns (y: string)
    requires |before| < pos < |t| && t[..|before|] == before
    ensures KeepsFirst(t, before, y, InsText(t, pos, val))
  {
    var u, n := InsText(t, pos, val), |before|;
    y := u[n..];
    assert u[..pos] == t[..pos];
    assert u[n] == t[n];
    assert u[..n] == before by { assert u[..n] == u[..pos][..n] && t[..n] == t[..pos][..n]; }
    assert u == u[..n] + u[n..];
  }

  lemma ValueInText(d: Doc, j: nat)
    requires d.root.Obj? && j < |d.root.members|
    ensures var m := d.root.members[j];
            PrintDoc(d) == BeforeValue(d, j) + Print(m.val) + (m.post + MoreOf(d.root.members, j) + "}" + d.post)
  {
    var ms := d.root.members;
    assert ms[j := ms[j].(val := ms[j].val)] == ms && d.root == Obj(ms, d.root.ws);
    PrintMembersAt(ms, j, ms[j].val);
    PrintOfObj(ms, d.root.ws);
    hide PrintMembers, Lead, HeadOf, MoreOf, Print;
    JoinPlace(d.pre, Lead(ms[..j]), HeadOf(ms[j]), Print(ms[j].val), ms[j].post, MoreOf(ms, j), d.post);
  }

  lemma FirstAtIn(d: Doc, j: nat)
    requires WfDoc(d) && d.root.Obj? && j < |d.root.members|
    ensures var t, n := PrintDoc(d), |BeforeValue(d, j)|;
            && n < FirstAt(d, j) < |t| && t[..n] == BeforeValue(d, j)
            && (t[n] == '{' <==> d.root.members[j].val.Obj?) && !IsWs(t[n])
  {
    var m, b := d.root.members[j], BeforeValue(d, j);
    var rest := m.post + MoreOf(d.root.members, j) + "}" + d.post;
    assert m in d.root.members && WfMember(m);
    ValueInText(d, j);
    FirstOfValue(m.val, "");
    assert m.val.Str? ==> |Print(m.val)| >= 2;
    hide Print, WfMember, PrintDoc, BeforeValue, MoreOf;
    var p := Print(m.val);
    assert p + "" == p;
    assert (b + p + rest)[|b|] == p[0];
  }

  // What a text with other characters in place of a value, and all after it, parses to: the members
  // before it are the same, and so is its key.
  lemma ParsedBefore(d: Doc, j: nat, y: string)
    requires WfDoc(d) && d.root.Obj? && j < |d.root.members| && y != [] && !IsWs(y[0])
    ensures var r := Parse(BeforeValue(d, j) + y);
            r.Some? ==> r.value.root.Obj? && SameBefore(d.root.members, r.value.root.members, j, y[0] == '{')
  {
    var ms := d.root.members;
    var a, x := ms[..j], HeadOf(ms[j]) + y;
    assert ms[j] in ms && WfMember(ms[j]);
    HeadParses(ms[j], y);
    MemberThen(ms[j], y);
    LeadParses(a, x);
    OpensWithMember(a, x);
    hide Lead, HeadOf, ParseValue, ParseMembers, WfMember, NoMember, ScanWs;
    var z := "{" + (Lead(a) + x);
    assert z[1..] == Lead(a) + x;
    JoinBefore(d.pre, Lead(a), HeadOf(ms[j]), y);
    RootParses(d.pre, z);
    ObjectParses(z);
    assert forall us: seq<Member> | us != [] :: (a + us)[..j] == a && (a + us)[j] == us[0];
  }

  lemma JoinBefore(pre: string, lead: string, head: string, y: string)
    ensures pre + "{" + lead + head + y == pre + ("{" + (lead + (head + y)))
  {
  }

  ghost predicate SameBefore(ms: seq<Member>, us: seq<Member>, j: nat, obj: bool)
    requires j < |ms|
  {
    j < |us| && us[..j] == ms[..j] && us[j].key == ms[j].key && (us[j].val.Obj? ==> obj)
  }

  // The kind of a value is that of its first character.
  lemma KindOfParsed(y: string)
    requires ParseValue(y).Some? && y != []
    ensures ParseValue(y).value.0.Obj? ==> y[0] == '{'
  {
    hide ScanPrim, ScanStr, ScanWs, ParseItems, ParseMembers, PrimOk;
  }

  lemma MemberThen(m: Member, y: string)
    requires WfMember(m) && y != [] && !IsWs(y[0])
    ensures var r := ParseMembers(HeadOf(m) + y);
            r.Some? ==> r.value.0 != [] && r.value.0[0].key == m.key && (r.value.0[0].val.Obj? ==> y[0] == '{')
  {
    HeadParses(m, y);
    if ParseValue(y).Some? {
      KindOfParsed(y);
    }
    hide HeadOf, ParseValue, ParseMember, ScanWs, WfMember, NoMember;
  }

  lemma ObjectParses(z: string)
    requires z != [] && z[0] == '{' && var (_, r) := ScanWs(z[1..]); r == [] || r[0] != '}'
    ensures ParseValue(z) == match ParseMembers(z[1..]) case None => None case Some((ms, r)) => Some((Obj(ms, ""), r))
  {
    hide ParseMembers, ScanWs, ScanStr, ScanPrim, ParseItems;
  }

  lemma RootParses(pre: string, z: string)
    requires AllWs(pre) && z != [] && !IsWs(z[0])
    ensures Parse(pre + z).Some? ==> ParseValue(z).Some? && Parse(pre + z).value.root == ParseValue(z).value.0
  {
    ScanWsOfPrint(pre, z);
    hide ParseValue, ScanWs, IsWs;
  }

  // In a value that is not an object the new member does not get into one: what is at its place is
  // still not an object, if the text parses at all.
  lemma NotInside(d: Doc, j: nat, m: Member)
    requires WfDoc(d) && d.root.Obj? && j < |d.root.members| && !d.root.members[j].val.Obj?
    ensures 1 <= FirstAt(d, j) < |PrintDoc(d)|
    ensures var r := Parse(InsText(PrintDoc(d), FirstAt(d, j), PrintMember(m)));
            r.Some? ==> r.value.root.Obj? && SameBefore(d.root.members, r.value.root.members, j, false)
  {
    FirstAtIn(d, j);
    hide BeforeValue, FirstAt, InsText, Parse, PrintDoc, PrintMember, WfDoc, IsWs, SameBefore;
    var y := InsKeeps(PrintDoc(d), BeforeValue(d, j), FirstAt(d, j), PrintMember(m));
    ParsedBefore(d, j, y);
  }

  // Inside the value of a top-level key: right if and only if the value is an object that does not
  // just hold white space.
  lemma CreateInsideIff(d: Doc, j: nat, key: string, v: Value)
    requires WfDoc(d) && d.root.Obj? && j < |d.root.members| && StrOk(key) && Wf(v)
    ensures InsertMeans(d, Within(j), 0, FirstAt(d, j), key, v)
            <==> d.root.members[j].val.Obj? && d.root.members[j].val.ws == ""
  {
    hide WfDoc, PrintDoc, Wf, StrOk, InsertMeans, BeforeValue;
    if d.root.members[j].val.Obj? {
      CreateFirstWorksIff(d, Within(j), key, v);
    } else {
      NotInside(d, j, Plain(key, v));
      MeansNoObject(d, j, key, v);
    }
  }

  lemma MeansNoObject(d: Doc, j: nat, key: string, v: Value)
    requires d.root.Obj? && j < |d.root.members| && 1 <= FirstAt(d, j) < |PrintDoc(d)|
    requires var r := Parse(InsText(PrintDoc(d), FirstAt(d, j), PrintMember(Plain(key, v))));
             r.Some? ==> r.value.root.Obj? && SameBefore(d.root.members, r.value.root.members, j, false)
    ensures !InsertMeans(d, Within(j), 0, FirstAt(d, j), key, v)
  {
    var r := Parse(InsText(PrintDoc(d), FirstAt(d, j), PrintMember(Plain(key, v))));
    if r.Some? {
      AbsMembersAt(r.value.root.members, j);
    }
    hide PrintDoc, FirstAt, Parse, InsText, PrintMember, AbsMembers;
  }
}
