/** Texts on which setting a parameter in cfg/cfg.cpp is not what one would expect. */
module CfgExamples {
  import opened Wrappers
  import opened JsonText
  import opened CfgText
  import opened CfgSet
  import opened CfgDoc
  import opened CfgSpots
  import opened CfgExact
  import opened CfgCreate
  import opened CfgRemove
  import opened CfgWalk
  import opened CfgFind
  import opened CfgPlaces
  import opened Jsmn
  import opened JsmnRead
  import opened CfgReads
  import opened CfgReadsIff
  import opened CfgInside
  import opened CfgParam
  import opened CfgSetting
  import opened CfgReadBack

  // ----- A member beside its object ---------------------------------------------------------------

  lemma DottedExample()
    ensures NameOf("a.x", false) == Two("a", "x") && AfterDot("a.x") == "x"
  {
    assert UpTo("a.x", '.') == 1 by { assert "a.x"[1..] == ".x"; }
    assert "a.x"[2..] == "x" && "a.x"[..1] == "a";
    assert DropSpace("x") == "x" && Word("x") == "x" by { assert "x"[1..] == ""; }
  }

  // The documents {"a":5} and {"a":5,"x":1}.
  function OneNumber(): Doc {
    Doc("", Obj([Plain("a", Prim("5"))], ""), "")
  }

  function TwoNumbers(): Doc {
    Doc("", Obj([Plain("a", Prim("5")), Plain("x", Prim("1"))], ""), "")
  }

  lemma TextsOfExample()
    ensures WfDoc(OneNumber()) && PrintDoc(OneNumber()) == "{\"a\":5}"
    ensures WfDoc(TwoNumbers()) && PrintDoc(TwoNumbers()) == "{\"a\":5,\"x\":1}"
  {
    ShortMember("a", "5");
    ShortMember("x", "1");
    ExampleDocs();
    hide *;
    OneMember(Plain("a", Prim("5")));
    TwoMembers(Plain("a", Prim("5")), Plain("x", Prim("1")));
    ExampleStrings();
  }

  lemma ExampleStrings()
    ensures "{" + ("\"" + "a" + "\":" + "5") + "}" == "{\"a\":5}"
    ensures "{" + (("\"" + "a" + "\":" + "5") + "," + ("\"" + "x" + "\":" + "1")) + "}" == "{\"a\":5,\"x\":1}"
  {
  }

  lemma ExampleDocs()
    ensures OneNumber() == Doc("", Obj([Plain("a", Prim("5"))], ""), "")
    ensures TwoNumbers() == Doc("", Obj([Plain("a", Prim("5")), Plain("x", Prim("1"))], ""), "")
  {
  }

  lemma TwoMembers(a: Member, b: Member)
    requires WfMember(a) && WfMember(b)
    ensures var d := Doc("", Obj([a, b], ""), "");
            WfDoc(d)
            && PrintDoc(d) == "{" + (PrintMember(a) + "," + PrintMember(b)) + "}"
  {
    PrintMembersCons(a, [b]);
    PrintMembersCons(b, []);
    assert [a] + [b] == [a, b] && [b] + [] == [b];
    BareText([a, b]);
    hide PrintDoc, PrintMembers, PrintMember, WfMember;
  }

  lemma PlaceInExample()
    ensures var d := OneNumber(); InFirst(d.root.members, Two("a", "x")) && CreateAt(d, Two("a", "x")) == 6
  {
    var a := Plain("a", Prim("5"));
    BareText([a]);
    hide PrintDoc, PrintMembers, BeforeValue;
    assert HeadOf(a) == "\"a\":";
    assert [a][0].key == "a";
    assert HasKey([a], "a") && KeyIndex([a], "a") == Some(0);
  }

  lemma InsInExample()
    ensures InsText("{\"a\":5}", 6, "\"x\":1") == "{\"a\":5,\"x\":1}"
  {
    InsBetween("{\"a\":5", "}", "\"x\":1");
    hide *;
    assert "{\"a\":5" + "}" == "{\"a\":5}";
    assert "{\"a\":5" + "," + "\"x\":1" + "" + "}" == "{\"a\":5,\"x\":1}";
  }

  lemma NewInExample()
    ensures WfDoc(OneNumber()) && NewText(OneNumber(), "a.x", false, Prim("1")) == PrintDoc(TwoNumbers())
  {
    hide PrintMember, WfMember, InsText, NewText, PrintDoc, WfDoc, InFirst, CreateAt, NameOf, AfterDot;
    DottedExample();
    TextsOfExample();
    PlaceInExample();
    InsInExample();
    ShortMember("x", "1");
    assert "\"" + "x" + "\":" + "1" == "\"x\":1";
    NewTextIs(OneNumber(), "a.x", false, Prim("1"));
  }

  // What a lookup finds in a text.
  predicate Finds(t: string, name: string, found: Found) {
    match Tokens(t) case None => false case Some(toks) => Looks(t, toks, NameOf(name, false), false) == Some(found)
  }

  lemma FindsInDoc(t: string, e: Doc, name: string)
    requires ReadsAs(t, e) && e.root.Obj? && Depth(e.root) < 32
    ensures Finds(t, name, Lookup(e.root.members, NameOf(name, false), false))
  {
    TokensIfReads(t, e);
    hide ReadsAs, Depth, Lookup, NameOf, Looks;
    ReadsLookup(t, e, NameOf(name, false), false);
  }

  lemma NothingInExample()
    ensures Lookup(TwoNumbers().root.members, NameOf("a.x", false), false) == OnlyFirst && Depth(TwoNumbers().root) < 32
  {
    DottedExample();
    hide NameOf;
    var ms := TwoNumbers().root.members;
    assert ms[1..] == [Plain("x", Prim("1"))] && ms[1..][1..] == [];
    assert KeyIndex(ms, "a") == Some(0) && HasKey(ms, "a");
    assert NextBox(ms, 2) == None && NextBox(ms, 1) == None && NextBox(ms, 0) == None;
    LookupOfSpot(TwoNumbers(), Two("a", "x"));
  }

  // {"a":5} and a.x: the new member lands at the top level, where the name does not find it.
  lemma CreatedElsewhere()
    ensures PrintDoc(OneNumber()) == "{\"a\":5}" && WfDoc(OneNumber())
    ensures NewText(OneNumber(), "a.x", false, Prim("1")) == "{\"a\":5,\"x\":1}"
    ensures ReadsAs("{\"a\":5,\"x\":1}", TwoNumbers()) && Finds("{\"a\":5,\"x\":1}", "a.x", OnlyFirst)
  {
    hide PrintDoc, WfDoc, NewText, NameOf, Lookup, ReadsAs, Depth, Finds;
    TextsOfExample();
    NewInExample();
    NothingInExample();
    DocReads(TwoNumbers());
    FindsInDoc("{\"a\":5,\"x\":1}", TwoNumbers(), "a.x");
  }

  // {} and a.x: the whole name is the key, which the name does not stand for.
  lemma DottedKeyIsWf()
    ensures WfMember(Plain("a.x", Prim("1"))) && PrintMember(Plain("a.x", Prim("1"))) == "\"a.x\":1"
  {
    MemberText("a.x", Prim("1"));
    assert "\"" + "a.x" + "\":" + "1" == "\"a.x\":1";
    assert "a.x"[1..] == ".x" && ".x"[1..] == "x" && "x"[1..] == "" && "1"[1..] == "";
    hide PrintMember;
    assert StrOk("x") && StrOk(".x") && StrOk("a.x");
    assert Digits("1") == 1 && IsNumber("1");
  }

  lemma NotDotted()
    ensures Lookup([Plain("a.x", Prim("1"))], NameOf("a.x", false), false) == Missing
  {
    var ms := [Plain("a.x", Prim("1"))];
    DottedExample();
    hide NameOf;
    assert "a.x" != "a" && ms[1..] == [];
    assert !HasKey(ms, "a");
    FindKeyIff(ms, 1, "a");
    NoKeyNothing(ms, 1, "a", "x");
  }

  lemma NothingYet()
    ensures var d, nm := Doc("", Obj([], ""), ""), Two("a", "x");
            WfDoc(d) && d.root.Obj? && d.root.members == [] && CreateAt(d, nm) == |PrintDoc(d)| - 1
            && (NameOf("a.x", false) == nm ==> NewKey([], "a.x", false) == "a.x")
  {
    hide NameOf, AfterDot, PrintDoc;
    assert !HasKey([], "a");
  }

  lemma DottedKey()
    ensures var d, e := Doc("", Obj([], ""), ""), Doc("", Obj([Plain("a.x", Prim("1"))], ""), "");
            && WfDoc(d) && PrintDoc(d) == "{}" && NewText(d, "a.x", false, Prim("1")) == "{\"a.x\":1}"
            && ReadsAs("{\"a.x\":1}", e) && Finds("{\"a.x\":1}", "a.x", Missing)
  {
    hide *;
    NothingYet();
    var d, e := Doc("", Obj([], ""), ""), Doc("", Obj([Plain("a.x", Prim("1"))], ""), "");
    DottedExample();
    DottedKeyIsWf();
    NewTextIs(d, "a.x", false, Prim("1"));
    DottedTexts();
    NotDotted();
    DottedFine(e);
    DocReads(e);
    FindsInDoc("{\"a.x\":1}", e, "a.x");
  }

  lemma DottedFine(e: Doc)
    requires e == Doc("", Obj([Plain("a.x", Prim("1"))], ""), "")
    ensures WfDoc(e) && IsBox(e.root) && Depth(e.root) < 32
  {
    DottedKeyIsWf();
    hide WfMember, PrintMember;
    assert e.root.members[1..] == [];
  }

  lemma DottedTexts()
    ensures PrintDoc(Doc("", Obj([], ""), "")) == "{}"
    ensures PrintDoc(Doc("", Obj([Plain("a.x", Prim("1"))], ""), "")) == "{\"a.x\":1}"
    ensures InsText("{}", 1, "\"a.x\":1") == "{\"a.x\":1}"
  {
    var m := Plain("a.x", Prim("1"));
    DottedKeyIsWf();
    PrintMembersCons(m, []);
    assert [m] + [] == [m];
    BareText([m]);
    InsDotted();
    hide PrintMember, WfMember, PrintMembers, InsText;
    assert "{" + "\"a.x\":1" + "}" == "{\"a.x\":1}";
  }

  lemma InsDotted()
    ensures InsText("{}", 1, "\"a.x\":1") == "{\"a.x\":1}"
  {
    InsBetween("{", "}", "\"a.x\":1");
    hide *;
    assert "{" + "}" == "{}";
    assert "{" + "" + "\"a.x\":1" + "" + "}" == "{\"a.x\":1}";
  }

  // ----- A tab behind a value ---------------------------------------------------------------------

  function TabMember(): Member {
    Member("", "a", "", "", Prim("1"), "\t")
  }

  // {"a":1<tab>,"b":2}
  function WithTab(): Doc {
    Doc("", Obj([TabMember(), Plain("b", Prim("2"))], ""), "")
  }

  lemma TabMemberIs()
    ensures WfMember(TabMember()) && PrintMember(TabMember()) == "\"a\":1\t"
    ensures HeadCuttable(TabMember()) && !Cuttable(TabMember()) && TrimAfter("\t") == "\t"
  {
    ShortMember("a", "1");
    assert "\t"[0] == '\t' && !After('\t') && IsWs('\t');
    assert "" + ("\"" + "a" + "\"" + "" + ":" + "" + "1" + "\t") == "\"a\":1\t";
  }

  lemma TabText()
    ensures WfDoc(WithTab()) && PrintDoc(WithTab()) == "{\"a\":1\t,\"b\":2}"
  {
    TabMemberIs();
    ShortMember("b", "2");
    hide PrintMember, WfMember, PrintDoc, WfDoc, TabMember;
    TwoMembers(TabMember(), Plain("b", Prim("2")));
    assert "{" + ("\"a\":1\t" + "," + ("\"" + "b" + "\":" + "2")) + "}" == "{\"a\":1\t,\"b\":2}";
  }

  lemma TabSpot()
    ensures var d := WithTab();
            && Spot(d.root.members, NameOf("a", false)) == Some((Root, 0)) && Holds(d, Root)
               && d.root.members[0] == TabMember()
            && Unique(d.root.members) && Depth(d.root) < 32 && |d.root.members| == 2
  {
    var ms := WithTab().root.members;
    assert UpTo("a", '.') == 1 by { assert "a"[1..] == ""; }
    assert ms[0].key == "a" && ms[1].key == "b" && ms[1..] == [Plain("b", Prim("2"))] && ms[1..][1..] == [];
  }

  lemma TabParts()
    ensures var ms := WithTab().root.members;
            && |ms| == 2 && Opening("", ms, 0) == "{"
               && Closing(ms, 0, "") == "," + PrintMember(Plain("b", Prim("2"))) + "}"
            && ms[0].post == "\t" && ms[0].key == "a"
  {
    var ms, b := WithTab().root.members, Plain("b", Prim("2"));
    PrintMembersCons(b, []);
    assert ms[..0] == [] && ms[1..] == [b] && [b] + [] == [b];
    hide PrintMember, PrintMembers;
  }

  lemma TabStrings()
    ensures "{" + ("\"" + "a" + "\":" + "9") + ("," + ("\t" + ("," + ("\"" + "b" + "\":" + "2") + "}")))
            == "{\"a\":9,\t,\"b\":2}"
  {
  }

  lemma TabLeft()
    ensures Holds(WithTab(), Root) && SetLoosely(WithTab(), Root, 0, Prim("9")) == "{\"a\":9,\t,\"b\":2}"
  {
    ShortMember("a", "9");
    ShortMember("b", "2");
    TabMemberIs();
    TabParts();
    TabStrings();
    hide PrintMember, PrintMembers, TrimAfter, Opening, Closing, WfMember, TabMember;
  }

  // Setting a to 9 leaves a comma more, which jsmn_parse passes over.
  lemma TabBehind()
    ensures PrintDoc(WithTab()) == "{\"a\":1\t,\"b\":2}" && WfDoc(WithTab())
    ensures SetOn(PrintDoc(WithTab()), Toks(WithTab().root, 0), "a", false, Prim("9")) == Some("{\"a\":9,\t,\"b\":2}")
    ensures Holds(WithTab(), Root) && ReadsAs("{\"a\":9,\t,\"b\":2}", Setting(WithTab(), Root, 0, Prim("9")))
  {
    var d := WithTab();
    assert d.pre == "" && ObjAt(d, Root) == d.root && d.root.members[0] == TabMember();
    assert Settable(Prim("9")) && Suits(false, Prim("1"))
           && !Prim("9").Str? by { assert "9"[1..] == ""; assert Digits("9") == 1; }
    assert Tidy("a", false) by { assert UpTo("a", '.') == 1 by { assert "a"[1..] == ""; } }
    hide *;
    TabText();
    TabSpot();
    TabLeft();
    TabMemberIs();
    SettingThere(d, "a", Prim("9"), Root, 0);
    SetsToLoosely(d, Root, 0, Prim("9"), NameOf("a", false),
      SetOn(PrintDoc(d), Toks(d.root, |d.pre|), "a", false, Prim("9")));
  }

  lemma SetsToLoosely(d: Doc, at: Place, i: nat, val: Value, name: Name, r: Option<string>)
    requires Holds(d, at) && i < |ObjAt(d, at).members| && InText(PrintDoc(d), LeftOf(d, at), ObjAt(d, at).members, i)
    requires SetsTo(d, at, i, val, name, r) && Suits(val.Str?, ObjAt(d, at).members[i].val)
    requires HeadCuttable(ObjAt(d, at).members[i]) && !Cuttable(ObjAt(d, at).members[i])
    ensures r == Some(SetLoosely(d, at, i, val)) && ReadsAs(r.value, Setting(d, at, i, val))
  {
    hide ObjAt, PrintDoc, LeftOf, InText, Holds, Suits, Setting, Lingers, ReadsAs, HeadCuttable, Cuttable, SetLoosely;
  }

  // ----- Objects of white space only --------------------------------------------------------------

  // An object with one member, as a value.
  lemma OneInObject(m: Member)
    requires WfMember(m)
    ensures Print(Obj([m], "")) == "{" + PrintMember(m) + "}" && Wf(Obj([m], ""))
  {
    PrintMembersCons(m, []);
    assert [m] + [] == [m];
    hide PrintMember, PrintMembers, WfMember;
  }

  lemma OneDepth(m: Member)
    ensures Depth(Obj([m], "")) == 1 + Depth(m.val)
  {
    assert [m][1..] == [] && MemberDepth([m][1..]) == 0;
    hide Depth;
    assert MemberDepth([m]) == Depth(m.val);
  }

  lemma PlainName()
    ensures NameOf("a", false) == One("a") && Tidy("a", false)
  {
    assert UpTo("a", '.') == 1 by { assert "a"[1..] == ""; }
  }

  lemma OneFound(ms: seq<Member>)
    requires |ms| == 1 && ms[0].key == "a"
    ensures Lookup(ms, NameOf("a", false), false) == At(2)
  {
    PlainName();
  }

  // { } and a: a comma in front of the member.
  lemma SpacesInRoot()
    ensures var d, e := Doc("", Obj([], " "), ""), Doc("", Obj([Plain("a", Prim("1"))], ""), "");
            && WfDoc(d) && PrintDoc(d) == "{ }" && NewText(d, "a", false, Prim("1")) == "{ ,\"a\":1}"
            && ReadsAs("{ ,\"a\":1}", e) && Finds("{ ,\"a\":1}", "a", At(2))
  {
    var d, m := Doc("", Obj([], " "), ""), Plain("a", Prim("1"));
    var e := Doc("", Obj([m], ""), "");
    assert "" + ("{" + " " + "}") + "" == "{ }" && "\"" + "a" + "\":" + "1" == "\"a\":1";
    assert PrintDoc(d) == "{ }" && WfDoc(d) && !InFirst([], One("a"));
    assert Inserted(d, Root, 0, m) == e
           && Depth(e.root) < 32 by { assert [m][1..] == []; assert [][..0] + [m] + [][0..] == [m]; }
    ShortMember("a", "1");
    PlainName();
    OneFound(e.root.members);
    InsAtEnds();
    NewTextIs(d, "a", false, Prim("1"));
    hide NameOf, PrintMember, WfMember, InsText, ReadsAs, NewText, PrintDoc, Finds, Depth, Lookup, WfDoc, Inserted,
      Plain;
    CreatingReadsLast(d, m);
    FindsInDoc("{ ,\"a\":1}", e, "a");
  }

  // {"a":{ }}, and with a member in the object.
  function SpaceInside(): Doc {
    Doc("", Obj([Plain("a", Obj([], " "))], ""), "")
  }

  function NewInside(): Doc {
    Doc("", Obj([Plain("a", Obj([Plain("x", Prim("1"))], ""))], ""), "")
  }

  lemma KeyAIsOk()
    ensures StrOk("a") && AllWs("") && AllWs(" ")
  {
    assert "a"[1..] == "";
  }

  lemma SpaceInsideText()
    ensures WfDoc(SpaceInside()) && PrintDoc(SpaceInside()) == "{\"a\":{ }}"
  {
    var v := Obj([], " ");
    KeyAIsOk();
    MemberText("a", v);
    assert Print(v) == "{" + " " + "}" && Wf(v);
    assert WfMember(Plain("a", v)) by { PlainIsWf("a", v); }
    hide WfMember, PrintMember, PrintDoc, WfDoc, Print, Wf, Plain;
    OneMember(Plain("a", v));
    assert "{" + ("\"" + "a" + "\":" + ("{" + " " + "}")) + "}" == "{\"a\":{ }}";
  }

  lemma FirstIndex(m: Member)
    ensures KeyIndex([m], m.key) == Some(0) && HasKey([m], m.key) && Unique([m])
  {
    assert [m][0].key == m.key;
  }

  lemma SpaceInsidePlace()
    ensures var d := SpaceInside();
            && InFirst(d.root.members, Two("a", "x")) && CreateAt(d, Two("a", "x")) == 6 && Holds(d, Within(0))
               && |LeftOf(d, Within(0))| == 5
  {
    var a := Plain("a", Obj([], " "));
    BareText([a]);
    FirstIndex(a);
    hide PrintDoc, PrintMembers, BeforeValue, HasKey, KeyIndex;
    assert HeadOf(a) == "\"a\":";
  }

  lemma InsInside()
    ensures InsText("{\"a\":{ }}", 6, "\"x\":1") == "{\"a\":{\"x\":1, }}"
  {
    InsBetween("{\"a\":{", " }}", "\"x\":1");
    hide *;
    assert "{\"a\":{" + " }}" == "{\"a\":{ }}";
    assert "{\"a\":{" + "" + "\"x\":1" + "," + " }}" == "{\"a\":{\"x\":1, }}";
  }

  lemma NewInsideIs()
    ensures Holds(SpaceInside(), Within(0))
            && Inserted(SpaceInside(), Within(0), 0, Plain("x", Prim("1"))) == NewInside()
    ensures Depth(NewInside().root) < 32 && Lookup(NewInside().root.members, Two("a", "x"), false) == At(4)
  {
    var m := Plain("x", Prim("1"));
    var a := Plain("a", Obj([m], ""));
    OneDepth(m);
    OneDepth(a);
    FirstIndex(m);
    FirstIndex(a);
    assert With([], 0, m) == [m];
    assert [Plain("a", Obj([], " "))][0 := a] == [a];
    hide Depth, Unique, HasKey, KeyIndex;
    assert NextBox([a], 0) == Some(0) && Spot([a], Two("a", "x")) == Some((Within(0), 0));
    LookupOfSpot(NewInside(), Two("a", "x"));
  }

  // {"a":{ }} and a.x: a comma behind the member.
  lemma SpacesInObject()
    ensures WfDoc(SpaceInside()) && PrintDoc(SpaceInside()) == "{\"a\":{ }}"
    ensures NewText(SpaceInside(), "a.x", false, Prim("1")) == "{\"a\":{\"x\":1, }}"
    ensures ReadsAs("{\"a\":{\"x\":1, }}", NewInside()) && Finds("{\"a\":{\"x\":1, }}", "a.x", At(4))
  {
    var d, m := SpaceInside(), Plain("x", Prim("1"));
    assert "\"" + "x" + "\":" + "1" == "\"x\":1" && NewInside().root.Obj?;
    hide *;
    DottedExample();
    SpaceInsideText();
    SpaceInsidePlace();
    InsInside();
    NewInsideIs();
    ShortMember("x", "1");
    KeyOfTwo(d.root.members, "a.x", Two("a", "x"));
    SpaceIsObj();
    NewTextIs(d, "a.x", false, Prim("1"));
    CreatingReadsFirst(d, Within(0), m);
    FindsInDoc("{\"a\":{\"x\":1, }}", NewInside(), "a.x");
  }

  lemma SpaceIsObj()
    ensures SpaceInside().root.Obj? && NewInside().root.Obj?
  {
  }

  lemma KeyOfTwo(ms: seq<Member>, name: string, nm: Name)
    requires NameOf(name, false) == nm && InFirst(ms, nm)
    ensures NewKey(ms, name, false) == AfterDot(name)
  {
    hide NameOf, InFirst, AfterDot;
  }

  // ----- Another object's member ------------------------------------------------------------------

  // {"a":1,"b":{"x":2}}, with x as given.
  function Beside(x: string): Doc {
    Doc("", Obj([Plain("a", Prim("1")), Plain("b", Obj([Plain("x", Prim(x))], ""))], ""), "")
  }

  lemma KeyBIsOk()
    ensures StrOk("b")
  {
    assert "b"[1..] == "";
  }

  lemma BesideText(x: string)
    requires |x| == 1 && IsDigit(x[0])
    ensures WfDoc(Beside(x)) && PrintDoc(Beside(x)) == "{\"a\":1,\"b\":{\"x\":" + x + "}}"
  {
    hide *;
    var m, a := Plain("x", Prim(x)), Plain("a", Prim("1"));
    var v := Obj([m], "");
    DigitOne();
    KeyBIsOk();
    ShortMember("x", x);
    ShortMember("a", "1");
    OneInObject(m);
    MemberText("b", v);
    PlainIsWf("b", v);
    TwoMembers(a, Plain("b", v));
    BesideIs(x);
    BesideStrings(x);
  }

  lemma DigitOne()
    ensures IsDigit('1')
  {
  }

  lemma BesideIs(x: string)
    ensures Beside(x) == Doc("", Obj([Plain("a", Prim("1")), Plain("b", Obj([Plain("x", Prim(x))], ""))], ""), "")
  {
  }

  lemma BesideStrings(x: string)
    ensures "{" + (("\"" + "a" + "\":" + "1") + "," + ("\"" + "b" + "\":" + ("{" + ("\"" + "x" + "\":" + x) + "}"))) +
            "}"
         == "{\"a\":1,\"b\":{\"x\":" + x + "}}"
  {
  }

  lemma BesideSpot(x: string)
    ensures var d := Beside(x);
            && d.root.Obj? && Unique(d.root.members) && Holds(d, Within(1))
               && ObjAt(d, Within(1)).members == [Plain("x", Prim(x))]
            && Spot(d.root.members, Two("a", "x")) == Some((Within(1), 0))
               && Named(d.root.members, Two("a", "x")) == None
  {
    var ms, m := Beside(x).root.members, Plain("x", Prim(x));
    FirstIndex(m);
    assert ms[0].key == "a" && ms[1].key == "b" && KeyIndex(ms, "a") == Some(0);
    hide KeyIndex;
    assert NextBox(ms, 1) == Some(1) && NextBox(ms, 0) == Some(1);
  }

  lemma BesideDepth(x: string)
    ensures Depth(Beside(x).root) < 32
  {
    var a, b := Plain("a", Prim("1")), Plain("b", Obj([Plain("x", Prim(x))], ""));
    OneDepth(Plain("x", Prim(x)));
    assert [a, b][1..] == [b] && [b][1..] == [];
    assert Depth(b.val) == 1 && MemberDepth([b]) <= 1 && MemberDepth([a, b]) <= 1;
  }

  lemma BesideSet()
    ensures Holds(Beside("2"), Within(1)) && Setting(Beside("2"), Within(1), 0, Prim("3")) == Beside("3")
  {
    var a, b, m := Plain("a", Prim("1")), Plain("b", Obj([Plain("x", Prim("2"))], "")), Plain("x", Prim("3"));
    assert Replaced([Plain("x", Prim("2"))], 0, m) == [m];
    assert [a, b][1 := b.(val := Obj([m], ""))] == [a, Plain("b", Obj([m], ""))];
    hide Replaced;
  }

  lemma PlainIsCuttable(key: string, v: Value)
    ensures HeadCuttable(Plain(key, v)) && Cuttable(Plain(key, v))
  {
  }

  lemma DigitsSuit()
    ensures Settable(Prim("3")) && Suits(false, Prim("2")) && !Prim("3").Str?
  {
    assert "3"[1..] == "" && Digits("3") == 1;
  }

  // {"a":1,"b":{"x":2}} and a.x, which is not there: setting it to 3 rewrites b.x.
  lemma MisledSet()
    ensures WfDoc(Beside("2")) && PrintDoc(Beside("2")) == "{\"a\":1,\"b\":{\"x\":2}}"
    ensures SetOn(PrintDoc(Beside("2")), Toks(Beside("2").root, |Beside("2").pre|), "a.x", false, Prim("3"))
         == Some("{\"a\":1,\"b\":{\"x\":3}}")
  {
    hide *;
    var d, m := Beside("2"), Plain("x", Prim("2"));
    SmallDigits();
    BesideText("2");
    BesideText("3");
    BesideSpot("2");
    BesideDepth("2");
    BesideSet();
    DottedExample();
    DigitsSuit();
    PlainIsCuttable("x", Prim("2"));
    PlainParts("x", Prim("2"));
    FirstIndex(m);
    TidyDotted();
    SettingThere(d, "a.x", Prim("3"), Within(1), 0);
    SetsToWell(d, Within(1), 0, Prim("3"), NameOf("a.x", false),
      SetOn(PrintDoc(d), Toks(d.root, |d.pre|), "a.x", false, Prim("3")));
    SmallTexts();
  }

  lemma SmallDigits()
    ensures IsDigit("2"[0]) && IsDigit("3"[0])
  {
  }

  lemma SmallTexts()
    ensures "{\"a\":1,\"b\":{\"x\":" + "2" + "}}" == "{\"a\":1,\"b\":{\"x\":2}}"
    ensures "{\"a\":1,\"b\":{\"x\":" + "3" + "}}" == "{\"a\":1,\"b\":{\"x\":3}}"
  {
  }

  lemma TidyDotted()
    ensures Tidy("a.x", false)
  {
    DottedExample();
    hide NameOf, AfterDot;
  }

  lemma SetsToWell(d: Doc, at: Place, i: nat, val: Value, name: Name, r: Option<string>)
    requires Holds(d, at) && i < |ObjAt(d, at).members| && InText(PrintDoc(d), LeftOf(d, at), ObjAt(d, at).members, i)
    requires SetsTo(d, at, i, val, name, r) && Suits(val.Str?, ObjAt(d, at).members[i].val)
    requires HeadCuttable(ObjAt(d, at).members[i]) && Cuttable(ObjAt(d, at).members[i])
    ensures r == Some(PrintDoc(Setting(d, at, i, val)))
  {
    hide ObjAt, PrintDoc, LeftOf, InText, Holds, Suits, Setting, Lingers, ReadsAs, HeadCuttable, Cuttable, SetLoosely;
  }

  // ----- A blank before a colon -------------------------------------------------------------------

  // {"a" :1}
  function Spaced(): Doc {
    Doc("", Obj([Member("", "a", " ", "", Prim("1"), "")], ""), "")
  }

  // A number where a key should be.
  lemma BareInObject()
    ensures Tokens("{1}") == None
  {
    var s := "{1}";
    assert s[0] == '{' && s[1..][0] == '1';
    assert LastOpen([Raw(TObj, 0, -1, 0)]) == 0;
    assert Bump([], -1) + [Raw(TObj, 0, -1, 0)] == [Raw(TObj, 0, -1, 0)];
    assert Took(Jsmn.St([], -1), s, 0) == Some((Jsmn.St([Raw(TObj, 0, -1, 0)], 0), 1));
    assert Took(Jsmn.St([Raw(TObj, 0, -1, 0)], 0), s[1..], 1) == None;
  }

  lemma SpacedSpot()
    ensures var d := Spaced();
            && d.root.Obj? && Spot(d.root.members, NameOf("a", false)) == Some((Root, 0)) && Holds(d, Root)
               && ObjAt(d, Root) == d.root
            && Unique(d.root.members) && Depth(d.root) < 32 && LeftOf(d, Root) == "" && |d.root.members| == 1
            && d.root.members[0].val == Prim("1") && KeyAt("", d.root.members, 0) == 2 && d.root.members[0].key == "a"
            && ValLen(d.root.members, 0) == 1
  {
    var ms := Spaced().root.members;
    PlainName();
    assert ms[0].key == "a" && ms[1..] == [] && ms[..0] == [];
  }

  // Setting a cuts out too little, and the code panics at the text left.
  lemma BlankBeforeColon()
    ensures WfDoc(Spaced()) && PrintDoc(Spaced()) == "{\"a\" :1}"
    ensures RemoveOn(PrintDoc(Spaced()), Toks(Spaced().root, |Spaced().pre|), NameOf("a", false), false)
            == Cut("{1}", 1)
    ensures Tokens("{1}") == None
    ensures SetOn(PrintDoc(Spaced()), Toks(Spaced().root, |Spaced().pre|), "a", false, Prim("2")) == None
  {
    hide *;
    var d := Spaced();
    SpacedText();
    SpacedSpot();
    DigitsSuit();
    OneSuits();
    BareInObject();
    CutOfSpaced();
    SetOnFound(d, "a", false, Prim("2"), Root, 0);
    RemoveInDoc(d, NameOf("a", false), Root, 0, false);
    CutOfIs(PrintDoc(d), "", d.root.members, 0);
    OfCutSome("{1}", 1);
    ReplaceOnCut(PrintDoc(d), Toks(d.root, |d.pre|), "a", Prim("2"), "{1}", 1);
  }

  lemma SpacedText()
    ensures WfDoc(Spaced()) && PrintDoc(Spaced()) == "{\"a\" :1}"
  {
    SpacedIsWf();
    hide WfDoc, PrintDoc;
  }

  lemma OneSuits()
    ensures Suits(false, Prim("1")) && !Prim("2").Str?
  {
  }

  lemma CutOfIs(t: string, left: string, ms: seq<Member>, i: nat)
    requires i < |ms| && InText(t, left, ms, i)
    ensures CutOf(t, left, ms, i) == CutText(t, KeyAt(left, ms, i), KeyAt(left, ms, i) + |ms[i].key|, ValLen(ms, i))
  {
    hide CutText, KeyAt, ValLen;
  }

  // ----- A dotted key -----------------------------------------------------------------------------

  // {"a.x":1}
  function Dotted(): Doc {
    Doc("", Obj([Plain("a.x", Prim("1"))], ""), "")
  }

  lemma DottedSpots()
    ensures var ms := Dotted().root.members;
            && Unique(ms) && Spot(ms, NameOf("a.x", true)).Some? && Spot(ms, NameOf("a.x", false)) == None
            && NewKey(ms, "a.x", false) == "a.x"
  {
    var ms := Dotted().root.members;
    DottedExample();
    assert UpTo("a.x", '.') == 1 && "a.x"[2..] == "x" by { assert "a.x"[1..] == ".x"; }
    assert NameOf("a.x", true) == One("a.x");
    hide NameOf, AfterDot;
    FirstIndex(ms[0]);
    assert "a.x" != "a" && !HasKey(ms, "a");
    KeyIndexIff(ms, "a");
  }

  lemma TwoAsText()
    ensures PrintMember(Plain("a.x", Prim("2"))) + "," + "{\"a.x\":1}" == "\"a.x\":2,{\"a.x\":1}"
  {
    MemberText("a.x", Prim("2"));
    hide PrintMember;
    assert "\"" + "a.x" + "\":" + "2" == "\"a.x\":2";
    assert "\"a.x\":2" + "," + "{\"a.x\":1}" == "\"a.x\":2,{\"a.x\":1}";
  }

  // Setting it with CFG_NO_DOT puts it in front of the text.
  lemma NoDotInFront()
    ensures WfDoc(Dotted()) && PrintDoc(Dotted()) == "{\"a.x\":1}"
    ensures SetOn(PrintDoc(Dotted()), Toks(Dotted().root, |Dotted().pre|), "a.x", true, Prim("2"))
            == Some("\"a.x\":2,{\"a.x\":1}")
  {
    assert Dotted() == Doc("", Obj([Plain("a.x", Prim("1"))], ""), "") && Dotted().root.Obj?;
    hide *;
    DottedTexts();
    DottedFine(Dotted());
    DottedSpots();
    TwoAsText();
    SettingNoDot(Dotted(), "a.x", Prim("2"));
  }
}
