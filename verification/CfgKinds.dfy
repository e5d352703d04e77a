/** Which values _cfg_set_int and _cfg_set_string of cfg/cfg.cpp replace and remove, and between which
    white space, said of the characters of the text. */
module CfgKinds {
  import opened Wrappers
  import opened JsonText
  import opened CfgText
  import opened CfgSet
  import opened CfgDoc
  import opened CfgSpots
  import opened CfgExact
  import opened CfgCreate
  import opened CfgRemove
  import opened CfgWalk
  import opened CfgFind
  import opened CfgPlaces
  import opened CfgParam
  import opened JsmnRead
  import opened CfgReads
  import opened CfgReadsIff
  import opened CfgSetting
  import opened CfgReadBack
  import opened CfgExamples

  // ----- Kinds ------------------------------------------------------------------------------------

  lemma NumberStarts(text: string)
    requires IsNumber(text)
    ensures text != "" && (text[0] == '-' || '0' <= text[0] <= '9')
  {
  }

  // Of what RFC 8259 lets stand for a value, by its first character.
  lemma KindOfPrim(text: string)
    requires PrimOk(text)
    ensures text != ""
    ensures IsNull(text) <==> text == "null"
    ensures IsInt(text) <==> text[0] == '-' || '0' <= text[0] <= '9' || text == "null"
  {
    hide IsNumber;
    assert IsNull(text) ==> text[0] == text[..4][0] == 'n';
    if IsNumber(text) {
      NumberStarts(text);
    }
  }

  predicate NumberOrNull(v: Value) {
    v.Prim? && v.text != "" && (v.text[0] == '-' || '0' <= v.text[0] <= '9' || v.text == "null")
  }

  lemma SuitsIff(forString: bool, v: Value)
    requires Wf(v)
    ensures Suits(forString, v) <==> if forString then v.Str? || v == Prim("null") else NumberOrNull(v)
  {
    hide PrimOk, IsNull, IsInt;
    if v.Prim? {
      KindOfPrim(v.text);
    }
  }

  // Nothing but true and false among the values without parts is not a number, null or a string.
  lemma NotBoolean(v: Value)
    requires Wf(v) && v.Prim?
    ensures NumberOrNull(v) <==> v.text != "true" && v.text != "false"
  {
    hide IsNumber;
    if IsNumber(v.text) {
      NumberStarts(v.text);
    }
  }

  // ----- Names ------------------------------------------------------------------------------------

  lemma UpToDot(a: string, b: string)
    requires '.' !in a
    ensures UpTo(a, '.') == |a| && UpTo(a + "." + b, '.') == |a|
  {
    var t := a + "." + b;
    assert t[|a|] == '.' && forall i | 0 <= i < |a| :: t[i] == a[i];
    assert UpTo(t, '.') < |t| ==> t[UpTo(t, '.')] == '.';
  }

  // What separates words: a blank, or a tab, line feed, vertical tab, form feed or carriage return.
  predicate Blank(c: char) {
    c == ' ' || c == 9 as char || c == 10 as char || c == 11 as char || c == 12 as char || c == 13 as char
  }

  lemma {:induction false} FirstWord(x: string, y: string)
    requires (forall i | 0 <= i < |x| :: !Blank(x[i])) && (y == "" || Blank(y[0]))
    ensures Word(x + y) == x
  {
    if x != "" {
      assert (x + y)[1..] == x[1..] + y;
      FirstWord(x[1..], y);
    } else {
      assert x + y == y;
    }
  }

  lemma {:induction false} BlanksDropped(w: string, z: string)
    requires (forall i | 0 <= i < |w| :: Blank(w[i])) && (z == "" || !Blank(z[0]))
    ensures DropSpace(w + z) == z
  {
    if w != "" {
      assert (w + z)[1..] == w[1..] + z;
      BlanksDropped(w[1..], z);
    } else {
      assert w + z == z;
    }
  }

  // A name with one dot stands for a key in an object, the first word behind the dot; any other stands
  // for a key at the top level, as does one with a dot if it is to be taken as it is.
  lemma NameSplits(a: string, w: string, x: string, y: string, noDot: bool)
    requires '.' !in a && (forall i | 0 <= i < |w| :: Blank(w[i])) && (forall i | 0 <= i < |x| :: !Blank(x[i]))
    requires y == "" || (x != "" && Blank(y[0]))
    ensures NameOf(a, noDot) == One(a)
    ensures var b, t := w + (x + y), a + "." + (w + (x + y));
            && AfterDot(t) == b
            && NameOf(t, noDot) == if noDot || '.' in b then One(t) else if a == "" || x == "" then Bad else Two(a, x)
  {
    var b := w + (x + y);
    var t := a + "." + b;
    UpToDot(a, b);
    assert t[..|a|] == a && t[|a| + 1..] == b;
    assert x != "" ==> (x + y)[0] == x[0];
    FirstWord(x, y);
    BlanksDropped(w, x + y);
    hide UpTo, Blank;
  }

  // ----- White space ------------------------------------------------------------------------------

  // No white space before the colon, no carriage return before the key, only blanks and tabs after the
  // colon.
  predicate Findable(m: Member) {
    m.colon == "" && '\r' !in m.pre && '\n' !in m.mid && '\r' !in m.mid
  }

  // Only blanks and line feeds after the value.
  predicate Clean(m: Member) {
    '\t' !in m.post && '\r' !in m.post
  }

  lemma SpaceKinds(c: char)
    requires IsWs(c)
    ensures (Before(c) <==> c != '\r') && (Inside(c) <==> c != '\n' && c != '\r')
    ensures After(c) <==> c != '\t' && c != '\r'
  {
  }

  lemma CuttableIff(m: Member)
    requires WfMember(m)
    ensures HeadCuttable(m) <==> Findable(m)
    ensures Cuttable(m) <==> Findable(m) && Clean(m)
  {
    forall c | IsWs(c) {
      SpaceKinds(c);
    }
    hide Wf, IsWs, Before, Inside, After, StrOk;
  }

  // ----- Setting and removing ---------------------------------------------------------------------

  // Setting gives a text if and only if the value is one that the call replaces: a number or null for a
  // number, a string or null for a string.
  lemma SettingGivesIff(d: Doc, name: string, val: Value, at: Place, i: nat)
    requires WfDoc(d) && d.root.Obj? && Depth(d.root) < 32 && Unique(d.root.members)
    requires Spot(d.root.members, NameOf(name, false)) == Some((at, i)) && Holds(d, at) && i < |ObjAt(d, at).members|
    requires Unique(ObjAt(d, at).members) && Tidy(name, false) && Settable(val)
    requires Findable(ObjAt(d, at).members[i])
    ensures var m, r := ObjAt(d, at).members[i], SetOn(PrintDoc(d), Toks(d.root, |d.pre|), name, false, val);
            && (val.Prim? ==> (r.Some? <==> NumberOrNull(m.val)))
            && (val.Str? ==> (r.Some? <==> m.val.Str? || m.val == Prim("null")))
            && (r.Some? ==> ReadsAs(r.value, Setting(d, at, i, val)))
            && (r.Some? && Clean(m) ==> r.value == PrintDoc(Setting(d, at, i, val)))
  {
    hide *;
    SettingThere(d, name, val, at, i);
    MemberOfObject(d, at, i);
    var m, r := ObjAt(d, at).members[i], SetOn(PrintDoc(d), Toks(d.root, |d.pre|), name, false, val);
    CuttableIff(m);
    ValueIsWf(m);
    SuitsIff(val.Str?, m.val);
    SettableKinds(val);
    SetsToIff(d, at, i, val, NameOf(name, false), r);
  }

  lemma ValueIsWf(m: Member)
    requires WfMember(m)
    ensures Wf(m.val)
  {
  }

  lemma SettableKinds(val: Value)
    requires Settable(val)
    ensures val.Prim? || val.Str?
  {
  }

  lemma SetsToIff(d: Doc, at: Place, i: nat, val: Value, name: Name, r: Option<string>)
    requires Holds(d, at) && i < |ObjAt(d, at).members| && InText(PrintDoc(d), LeftOf(d, at), ObjAt(d, at).members, i)
    requires SetsTo(d, at, i, val, name, r) && HeadCuttable(ObjAt(d, at).members[i])
    ensures r.Some? <==> Suits(val.Str?, ObjAt(d, at).members[i].val)
    ensures r.Some? ==> ReadsAs(r.value, Setting(d, at, i, val))
    ensures r.Some? && Cuttable(ObjAt(d, at).members[i]) ==> r.value == PrintDoc(Setting(d, at, i, val))
  {
    hide ObjAt, PrintDoc, LeftOf, InText, Holds, Suits, Setting, Lingers, ReadsAs, HeadCuttable, Cuttable, SetLoosely;
  }

  // Any other value is left alone, whatever the white space.
  lemma SettingOtherKinds(d: Doc, name: string, val: Value, at: Place, i: nat)
    requires WfDoc(d) && d.root.Obj? && Depth(d.root) < 32 && Unique(d.root.members)
    requires Spot(d.root.members, NameOf(name, false)) == Some((at, i)) && Holds(d, at) && i < |ObjAt(d, at).members|
    requires Unique(ObjAt(d, at).members) && Tidy(name, false) && Settable(val)
    requires var v := ObjAt(d, at).members[i].val;
             if val.Str? then !v.Str? && v != Prim("null") else !NumberOrNull(v)
    ensures SetOn(PrintDoc(d), Toks(d.root, |d.pre|), name, false, val) == None
  {
    hide *;
    SettingThere(d, name, val, at, i);
    MemberOfObject(d, at, i);
    ValueIsWf(ObjAt(d, at).members[i]);
    SuitsIff(val.Str?, ObjAt(d, at).members[i].val);
    SetsToNothing(d, at, i, val, NameOf(name, false), SetOn(PrintDoc(d), Toks(d.root, |d.pre|), name, false, val));
  }

  lemma SetsToNothing(d: Doc, at: Place, i: nat, val: Value, name: Name, r: Option<string>)
    requires Holds(d, at) && i < |ObjAt(d, at).members| && InText(PrintDoc(d), LeftOf(d, at), ObjAt(d, at).members, i)
    requires SetsTo(d, at, i, val, name, r) && !Suits(val.Str?, ObjAt(d, at).members[i].val)
    ensures r == None
  {
    hide ObjAt, PrintDoc, LeftOf, InText, Holds, Suits, Setting, Lingers, ReadsAs, HeadCuttable, Cuttable, SetLoosely;
  }

  // Removing works if and only if, besides, the white space lets the cut find the value; any other kind
  // is refused.
  lemma RemovingGivesIff(d: Doc, name: Name, at: Place, i: nat, forString: bool)
    requires WfDoc(d) && d.root.Obj? && Depth(d.root) < 32 && Unique(d.root.members)
             && Spot(d.root.members, name) == Some((at, i))
    requires Holds(d, at) && i < |ObjAt(d, at).members|
    ensures var m, r := ObjAt(d, at).members[i], RemoveOn(PrintDoc(d), Toks(d.root, |d.pre|), name, forString);
            if if forString then m.val.Str? || m.val == Prim("null") else NumberOrNull(m.val)
            then r.Cut? && ReadsAs(r.text, Less(d, at, i)) <==> Findable(m)
            else r == Fails
  {
    hide *;
    RemovingThere(d, name, at, i, forString);
    MemberOfObject(d, at, i);
    var m := ObjAt(d, at).members[i];
    CuttableIff(m);
    ValueIsWf(m);
    SuitsIff(forString, m.val);
  }

  // ----- Texts ------------------------------------------------------------------------------------

  // {"a":v}
  function Single(v: Value): Doc {
    Doc("", Obj([Plain("a", v)], ""), "")
  }

  lemma SingleText(v: Value)
    requires Wf(v)
    ensures WfDoc(Single(v)) && PrintDoc(Single(v)) == "{" + ("\"" + "a" + "\":" + Print(v)) + "}"
  {
    KeyAIsOk();
    MemberText("a", v);
    PlainIsWf("a", v);
    hide WfMember, PrintMember, PrintDoc, WfDoc, Print, Wf, Plain;
    OneMember(Plain("a", v));
  }

  lemma SingleSpot(v: Value)
    requires !IsBox(v)
    ensures var d := Single(v);
            && d.root.Obj? && d.root.members == [Plain("a", v)] && d.pre == ""
            && Spot(d.root.members, NameOf("a", false)) == Some((Root, 0)) && Holds(d, Root) && ObjAt(d, Root) == d.root
            && Unique(d.root.members) && Depth(d.root) < 32 && Tidy("a", false)
            && Findable(Plain("a", v)) && Clean(Plain("a", v)) && Plain("a", v).val == v
  {
    PlainName();
    OneDepth(Plain("a", v));
    assert [Plain("a", v)][0].key == "a" && [Plain("a", v)][1..] == [];
  }

  lemma SingleSetting(v: Value, val: Value)
    ensures Holds(Single(v), Root) && Setting(Single(v), Root, 0, val) == Single(val)
  {
    assert Replaced([Plain("a", v)], 0, Plain("a", val)) == [Plain("a", val)];
  }

  // Setting a in {"a":v}.
  lemma SetSingle(v: Value, val: Value)
    requires Wf(v) && !IsBox(v) && Settable(val)
    ensures WfDoc(Single(v)) && PrintDoc(Single(v)) == "{" + ("\"" + "a" + "\":" + Print(v)) + "}"
    ensures var r := SetOn(PrintDoc(Single(v)), Toks(Single(v).root, 0), "a", false, val);
            if (if val.Str? then v.Str? || v == Prim("null") else NumberOrNull(v))
            then r == Some("{" + ("\"" + "a" + "\":" + Print(val)) + "}") else r == None
  {
    hide *;
    SingleText(v);
    SingleSpot(v);
    SingleSetting(v, val);
    SettableKinds(val);
    SettableIs(val);
    SingleText(val);
    SettingGivesIff(Single(v), "a", val, Root, 0);
  }

  lemma DigitsAreNumber(t: string)
    requires t != "" && t[0] != '0' && forall i | 0 <= i < |t| :: IsDigit(t[i])
    ensures PrimOk(t) && PrimOk("-" + t) && ("-" + t)[0] == '-' && IsDigit(t[0])
  {
    DigitsOfAll(t);
    assert t[|t|..] == "" && ("-" + t)[1..] == t;
    assert IsExponent("");
    hide Digits, IsExponent;
  }

  lemma {:induction false} DigitsOfAll(t: string)
    requires forall i | 0 <= i < |t| :: IsDigit(t[i])
    ensures Digits(t) == |t|
  {
    if t != "" {
      DigitsOfAll(t[1..]);
    }
  }

  // A negative number can be set, and replaced.
  lemma NegativeIs(t: string)
    requires t != "" && t[0] != '0' && forall i | 0 <= i < |t| :: IsDigit(t[i])
    ensures Settable(Prim("-" + t)) && Settable(Prim(t)) && NumberOrNull(Prim("-" + t))
  {
    DigitsAreNumber(t);
    hide PrimOk;
  }

  lemma Numbers()
    ensures Settable(Prim("-10")) && Settable(Prim("-110")) && Settable(Prim("5")) && NumberOrNull(Prim("-10"))
  {
    hide Settable, NumberOrNull;
    assert "-" + "10" == "-10" && "-" + "110" == "-110";
    NegativeIs("10");
    NegativeIs("110");
    NegativeIs("5");
  }

  lemma Words()
    ensures Settable(Prim("null")) && Settable(Prim("true")) && Settable(Str("x"))
    ensures NumberOrNull(Prim("null")) && !NumberOrNull(Prim("true"))
  {
    assert "x"[1..] == "";
    hide IsNumber;
  }

  // A negative number, null and true, set to a number and to a string.
  lemma SettingKinds()
    ensures PrintDoc(Single(Prim("-10"))) == "{\"a\":-10}"
    ensures SetOn("{\"a\":-10}", Toks(Single(Prim("-10")).root, 0), "a", false, Prim("-110")) == Some("{\"a\":-110}")
    ensures SetOn("{\"a\":-10}", Toks(Single(Prim("-10")).root, 0), "a", false, Str("x")) == None
    ensures PrintDoc(Single(Prim("null"))) == "{\"a\":null}"
    ensures SetOn("{\"a\":null}", Toks(Single(Prim("null")).root, 0), "a", false, Prim("5")) == Some("{\"a\":5}")
    ensures SetOn("{\"a\":null}", Toks(Single(Prim("null")).root, 0), "a", false, Str("x")) == Some("{\"a\":\"x\"}")
    ensures PrintDoc(Single(Prim("true"))) == "{\"a\":true}"
    ensures SetOn("{\"a\":true}", Toks(Single(Prim("true")).root, 0), "a", false, Prim("5")) == None
    ensures SetOn("{\"a\":true}", Toks(Single(Prim("true")).root, 0), "a", false, Str("x")) == None
  {
    KindTexts();
    hide *;
    Numbers();
    Words();
    PartsAreNoStrings();
    SettableIs(Prim("-10"));
    SettableIs(Prim("null"));
    SettableIs(Prim("true"));
    SetSingle(Prim("-10"), Prim("-110"));
    SetSingle(Prim("-10"), Str("x"));
    SetSingle(Prim("null"), Prim("5"));
    SetSingle(Prim("null"), Str("x"));
    SetSingle(Prim("true"), Prim("5"));
    SetSingle(Prim("true"), Str("x"));
  }

  lemma PartsAreNoStrings()
    ensures !Prim("-10").Str? && !Prim("true").Str? && Prim("true") != Prim("null") && Prim("-10") != Prim("null")
    ensures !Prim("-110").Str? && !Prim("5").Str? && !Prim("null").Str?
  {
  }

  lemma KindTexts()
    ensures "{" + ("\"" + "a" + "\":" + Print(Prim("-10"))) + "}" == "{\"a\":-10}"
    ensures "{" + ("\"" + "a" + "\":" + Print(Prim("-110"))) + "}" == "{\"a\":-110}"
    ensures "{" + ("\"" + "a" + "\":" + Print(Prim("null"))) + "}" == "{\"a\":null}"
    ensures "{" + ("\"" + "a" + "\":" + Print(Prim("true"))) + "}" == "{\"a\":true}"
    ensures "{" + ("\"" + "a" + "\":" + Print(Prim("5"))) + "}" == "{\"a\":5}"
    ensures "{" + ("\"" + "a" + "\":" + Print(Str("x"))) + "}" == "{\"a\":\"x\"}"
  {
    assert Print(Str("x")) == "\"x\"" by { assert "\"" + "x" + "\"" == "\"x\""; }
  }
}
