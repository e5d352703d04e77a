/** What setting, creating and removing a parameter does to a whole configuration text, whose root is
    an object, with the parameter at its top level or in an object that is the value of a top-level
    key: _cfg_set_int and its relatives of cfg/cfg.cpp. */
module CfgDoc {
  import opened Wrappers
  import opened JsonText
  import opened CfgText
  import opened CfgSet

  // ----- Objects inside a document ----------------------------------------------------------------

  datatype Place = Root | Within(j: nat)

  predicate Holds(d: Doc, at: Place) {
    d.root.Obj? && (at.Within? ==> at.j < |d.root.members| && d.root.members[at.j].val.Obj?)
  }

  function ObjAt(d: Doc, at: Place): (v: Value)
    requires Holds(d, at)
    ensures v.Obj?
  {
    if at.Root? then d.root else d.root.members[at.j].val
  }

  function WithObj(d: Doc, at: Place, v: Value): Doc
    requires Holds(d, at) && v.Obj?
  {
    if at.Root? then d.(root := v)
    else d.(root := Obj(d.root.members[at.j := d.root.members[at.j].(val := v)], d.root.ws))
  }

  // A member up to its value, and the members after it with the comma between.
  function HeadOf(m: Member): string {
    m.pre + ("\"" + m.key + "\"" + m.colon + ":" + m.mid)
  }

  function MoreOf(ms: seq<Member>, j: nat): string
    requires j < |ms|
  {
    if j + 1 == |ms| then "" else "," + PrintMembers(ms[j + 1..])
  }

  // The text in front of the value of member j.
  function BeforeValue(d: Doc, j: nat): string
    requires d.root.Obj? && j < |d.root.members|
  {
    d.pre + "{" + Lead(d.root.members[..j]) + HeadOf(d.root.members[j])
  }

  function LeftOf(d: Doc, at: Place): string
    requires Holds(d, at)
  {
    if at.Root? then d.pre else BeforeValue(d, at.j)
  }

  function RightOf(d: Doc, at: Place): string
    requires Holds(d, at)
  {
    if at.Root? then d.post else d.root.members[at.j].post + MoreOf(d.root.members, at.j) + "}" + d.post
  }

  lemma JoinPlace(pre: string, lead: string, head: string, v: string, mpost: string, more: string, post: string)
    ensures pre + ("{" + (lead + (head + v + mpost + more)) + "}") + post
         == (pre + "{" + lead + head) + v + (mpost + more + "}" + post)
  {
  }

  lemma PrintHead(m: Member)
    ensures PrintMember(m) == HeadOf(m) + Print(m.val) + m.post
  {
    hide Print;
    var b := "\"" + m.key + "\"" + m.colon + ":" + m.mid;
    Assoc(b, Print(m.val), m.post);
    Assoc(m.pre, b, Print(m.val) + m.post);
  }

  lemma PrintMembersAt(ms: seq<Member>, j: nat, v: Value)
    requires j < |ms|
    ensures PrintMembers(ms[j := ms[j].(val := v)])
            == Lead(ms[..j]) + (HeadOf(ms[j]) + Print(v) + ms[j].post + MoreOf(ms, j))
  {
    var us := ms[j := ms[j].(val := v)];
    PrintMembersSplit(us, j);
    assert us[..j] == ms[..j] && us[j..] == [us[j]] + ms[j + 1..];
    PrintMembersCons(us[j], ms[j + 1..]);
    PrintHead(us[j]);
    hide PrintMembers, Lead, Print, PrintMember;
    Assoc(PrintMember(us[j]), ",", PrintMembers(ms[j + 1..]));
  }

  lemma PrintWithObj(d: Doc, at: Place, v: Value)
    requires Holds(d, at) && v.Obj?
    ensures PrintDoc(WithObj(d, at, v)) == LeftOf(d, at) + Print(v) + RightOf(d, at)
  {
    if at.Within? {
      var ms := d.root.members;
      PrintMembersAt(ms, at.j, v);
      PrintOfObj(ms[at.j := ms[at.j].(val := v)], d.root.ws);
      hide PrintMembers, Lead, HeadOf, MoreOf, Print;
      JoinPlace(d.pre, Lead(ms[..at.j]), HeadOf(ms[at.j]), Print(v), ms[at.j].post, MoreOf(ms, at.j), d.post);
    }
  }

  lemma PrintOfObj(ms: seq<Member>, ws: string)
    requires ms != []
    ensures Print(Obj(ms, ws)) == "{" + PrintMembers(ms) + "}"
  {
  }

  lemma BareText(ms: seq<Member>)
    requires ms != []
    ensures PrintDoc(Doc("", Obj(ms, ""), "")) == "{" + PrintMembers(ms) + "}"
    ensures BeforeValue(Doc("", Obj(ms, ""), ""), 0) == "{" + HeadOf(ms[0])
  {
    PrintOfObj(ms, "");
    NothingPrinted();
    assert ms[..0] == [];
    hide PrintMembers, HeadOf, Lead;
  }

  lemma PrintAround(d: Doc, at: Place, ms: seq<Member>, ws: string)
    requires Holds(d, at)
    ensures PrintDoc(WithObj(d, at, Obj(ms, ws))) == Around(LeftOf(d, at), ms, ws, RightOf(d, at))
  {
    PrintWithObj(d, at, Obj(ms, ws));
    AroundIsPrint(LeftOf(d, at), ms, ws, RightOf(d, at));
    hide *;
  }

  lemma ObjectIsWf(d: Doc, at: Place)
    requires WfDoc(d) && Holds(d, at)
    ensures var o := ObjAt(d, at);
            Wf(o) && WfMembers(o.members) && AllWs(o.ws) && (o.members != [] ==> o.ws == "") && WithObj(d, at, o) == d
  {
    if at.Within? {
      var os := d.root.members;
      assert os[at.j] in os && WfMember(os[at.j]);
      assert os[at.j := os[at.j]] == os;
    }
    hide WfMember, AllWs;
    assert Wf(ObjAt(d, at));
  }

  lemma UpdatedIsWf(d: Doc, at: Place, ms: seq<Member>, ws: string)
    requires WfDoc(d) && Holds(d, at) && WfMembers(ms) && AllWs(ws) && (ms != [] ==> ws == "")
    ensures WfDoc(WithObj(d, at, Obj(ms, ws)))
  {
    hide AllWs;
    if at.Within? {
      var os := d.root.members;
      var us := os[at.j := os[at.j].(val := Obj(ms, ws))];
      assert os[at.j] in os && WfMember(os[at.j]);
      forall m | m in us ensures WfMember(m) {
        var k :| 0 <= k < |us| && us[k] == m;
        assert k != at.j ==> os[k] in os;
      }
    }
  }

  // ----- Setting a parameter that is there --------------------------------------------------------

  function Setting(d: Doc, at: Place, i: nat, v: Value): Doc
    requires Holds(d, at) && i < |ObjAt(d, at).members|
  {
    var ms := ObjAt(d, at).members;
    WithObj(d, at, Obj(Replaced(ms, i, Plain(ms[i].key, v)), ""))
  }

  lemma KeyIsInText(d: Doc, at: Place, i: nat)
    requires WfDoc(d) && Holds(d, at) && i < |ObjAt(d, at).members|
    ensures var ms := ObjAt(d, at).members;
            && PrintDoc(d) == Around(LeftOf(d, at), ms, "", RightOf(d, at))
            && WfMembers(ms)
  {
    var o := ObjAt(d, at);
    ObjectIsWf(d, at);
    PrintAround(d, at, o.members, o.ws);
    hide PrintDoc, Around, LeftOf, RightOf, WithObj, WfMembers, WfDoc;
  }

  // The same on what a text means.
  function MembersAt(j: Json, at: Place): seq<(string, Json)> {
    match (at, j)
    case (Root, JObj(ms)) => ms
    case (Within(k), JObj(ms)) => if k < |ms| && ms[k].1.JObj? then ms[k].1.members else []
    case _ => []
  }

  function WithMembers(j: Json, at: Place, ms: seq<(string, Json)>): Json
    requires j.JObj? && (at.Within? ==> at.j < |j.members|)
  {
    if at.Root? then JObj(ms) else JObj(j.members[at.j := (j.members[at.j].0, JObj(ms))])
  }

  // The text means this object with one member's value changed.
  predicate MeansUpdate(t: string, j: Json, at: Place, i: nat, v: Json) {
    var js := MembersAt(j, at);
    && j.JObj? && (at.Within? ==> at.j < |j.members|)
    && i < |js|
    && Meaning(t) == Some(WithMembers(j, at, js[i := (js[i].0, v)]))
  }

  lemma {:induction false} AbsMembersAt(ms: seq<Member>, i: nat)
    requires i < |ms|
    ensures AbsMembers(ms)[i] == (ms[i].key, Abs(ms[i].val))
  {
    if i > 0 {
      AbsMembersAt(ms[1..], i - 1);
    }
  }

  lemma {:induction false} AbsOfAppend(a: seq<Member>, b: seq<Member>)
    ensures AbsMembers(a + b) == AbsMembers(a) + AbsMembers(b)
  {
    if a == [] {
      assert a + b == b;
    } else {
      assert (a + b)[1..] == a[1..] + b;
      AbsOfAppend(a[1..], b);
    }
  }

  lemma AbsOfSplit(ms: seq<Member>, i: nat)
    requires i < |ms|
    ensures AbsMembers(ms) == AbsMembers(ms[..i]) + [(ms[i].key, Abs(ms[i].val))] + AbsMembers(ms[i + 1..])
  {
    assert ms == ms[..i] + ms[i..];
    AbsOfAppend(ms[..i], ms[i..]);
    assert ms[i..][1..] == ms[i + 1..];
    var x := [(ms[i].key, Abs(ms[i].val))];
    assert AbsMembers(ms[i..]) == x + AbsMembers(ms[i + 1..]);
  }

  lemma AbsOfTrimmed(ms: seq<Member>)
    ensures AbsMembers(TrimFirst(ms)) == AbsMembers(ms)
  {
    if ms != [] {
      assert TrimFirst(ms)[1..] == ms[1..];
    }
  }

  lemma AbsWithObj(d: Doc, at: Place, ms: seq<Member>, ws: string)
    requires Holds(d, at)
    ensures var j := Abs(d.root); j.JObj? && (at.Within? ==> at.j < |j.members|)
    ensures Abs(WithObj(d, at, Obj(ms, ws)).root) == WithMembers(Abs(d.root), at, AbsMembers(ms))
    ensures MembersAt(Abs(d.root), at) == AbsMembers(ObjAt(d, at).members)
  {
    if at.Within? {
      var os := d.root.members;
      var us := os[at.j := os[at.j].(val := Obj(ms, ws))];
      AbsMembersAt(os, at.j);
      AbsOfSplit(os, at.j);
      AbsOfSplit(us, at.j);
      assert us[..at.j] == os[..at.j] && us[at.j + 1..] == os[at.j + 1..];
      UpdateMiddle(AbsMembers(os[..at.j]), AbsMembers(os)[at.j], AbsMembers(os[at.j + 1..]), AbsMembers(us)[at.j]);
    }
  }

  lemma UpdateMiddle<T>(x: seq<T>, a: T, y: seq<T>, b: T)
    ensures (x + [a] + y)[|x| := b] == x + [b] + y
  {
  }

  lemma SplitOfReplaced(ms: seq<Member>, i: nat, m: Member)
    requires i < |ms|
    ensures var us := Replaced(ms, i, m);
            us[..i] == ms[..i] && us[i] == m && us[i + 1..] == TrimFirst(ms[i + 1..])
  {
    hide TrimFirst;
  }

  lemma AbsOfReplaced(ms: seq<Member>, i: nat, m: Member)
    requires i < |ms|
    ensures AbsMembers(Replaced(ms, i, m)) == AbsMembers(ms)[i := (m.key, Abs(m.val))]
  {
    var us := Replaced(ms, i, m);
    AbsOfSplit(ms, i);
    AbsOfSplit(us, i);
    SplitOfReplaced(ms, i, m);
    AbsOfTrimmed(ms[i + 1..]);
    hide AbsMembers, Abs, TrimFirst, Replaced;
    var x, y := AbsMembers(ms[..i]), AbsMembers(ms[i + 1..]);
    UpdateMiddle(x, (ms[i].key, Abs(ms[i].val)), y, (m.key, Abs(m.val)));
  }

  // Setting a parameter that is there changes its value and nothing else: the text parses to the old
  // object with the new value in place of the old one, all members in their order.
  lemma SettingReplacesValue(d: Doc, at: Place, i: nat, v: Value)
    requires WfDoc(d) && Holds(d, at) && i < |ObjAt(d, at).members| && Wf(v)
    requires Cuttable(ObjAt(d, at).members[i])
    ensures var ms := ObjAt(d, at).members;
            Sets(PrintDoc(d), LeftOf(d, at), ms, i, Plain(ms[i].key, v), PrintDoc(Setting(d, at, i, v)))
    ensures Parse(PrintDoc(Setting(d, at, i, v))) == Some(Setting(d, at, i, v))
    ensures MeansUpdate(PrintDoc(Setting(d, at, i, v)), Abs(d.root), at, i, Abs(v))
  {
    var ms, left, right := ObjAt(d, at).members, LeftOf(d, at), RightOf(d, at);
    var m := Plain(ms[i].key, v);
    var us := Replaced(ms, i, m);
    SettingText(d, at, i, v);
    KeyIsInText(d, at, i);
    ReplacedAreWf(ms, i, v);
    UpdatedIsWf(d, at, us, "");
    ParseIffPrint(PrintDoc(Setting(d, at, i, v)), Setting(d, at, i, v));
    AbsWithObj(d, at, us, "");
    AbsOfReplaced(ms, i, m);
    AbsMembersAt(ms, i);
    hide WfDoc, PrintDoc, Parse, Around, Cuttable, LeftOf, RightOf, Sets, Replaced, AbsMembers, WithObj, ObjAt;
  }

  lemma SettingText(d: Doc, at: Place, i: nat, v: Value)
    requires WfDoc(d) && Holds(d, at) && i < |ObjAt(d, at).members| && Wf(v)
    requires Cuttable(ObjAt(d, at).members[i])
    ensures var ms := ObjAt(d, at).members;
            Sets(PrintDoc(d), LeftOf(d, at), ms, i, Plain(ms[i].key, v), PrintDoc(Setting(d, at, i, v)))
  {
    var ms := ObjAt(d, at).members;
    var m := Plain(ms[i].key, v);
    assert Setting(d, at, i, v) == WithObj(d, at, Obj(Replaced(ms, i, m), ""));
    hide *;
    KeyIsInText(d, at, i);
    SetReplacesMember(LeftOf(d, at), ms, i, m, RightOf(d, at));
    PrintAround(d, at, Replaced(ms, i, m), "");
  }
}
