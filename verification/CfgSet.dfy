/** What cutting and inserting do to the members of an object that stands anywhere in a text. */
module CfgSet {
  import opened Wrappers
  import opened JsonText
  import opened CfgText

  // ----- Removing a member ------------------------------------------------------------------------

  ghost predicate WfMembers(ms: seq<Member>) {
    forall m | m in ms :: WfMember(m)
  }

  // The text of an object with these members, in its surroundings.
  function Around(left: string, ms: seq<Member>, ws: string, right: string): string {
    left + "{" + Inner(ms, ws) + "}" + right
  }

  lemma AroundIsPrint(left: string, ms: seq<Member>, ws: string, right: string)
    ensures Around(left, ms, ws, right) == left + Print(Obj(ms, ws)) + right
  {
    hide PrintMembers;
    var p := Inner(ms, ws);
    assert Print(Obj(ms, ws)) == "{" + p + "}";
    Assoc(left, "{" + p, "}");
    Assoc(left, "{", p);
  }

  // The two parts of the text around a position between two members.
  function Front(left: string, a: seq<Member>, b: seq<Member>): (p: string)
    ensures p != []
  {
    left + "{" + (if b == [] then PrintMembers(a) else Lead(a))
  }

  function Back(b: seq<Member>, right: string): (q: string)
    ensures q != []
  {
    (if b == [] then "" else PrintMembers(b)) + "}" + right
  }

  function InsAt(left: string, a: seq<Member>, b: seq<Member>): nat {
    |Front(left, a, b)|
  }

  lemma SplitAround(left: string, a: seq<Member>, b: seq<Member>, right: string)
    ensures Around(left, a + b, "", right) == Front(left, a, b) + Back(b, right)
  {
    if b == [] {
      assert a + b == a;
      hide PrintMembers;
      assert Inner(a, "") == (if a == [] then "" else PrintMembers(a)) == PrintMembers(a) by { NothingPrinted(); }
      assert left + "{" + PrintMembers(a) + "}" + right == (left + "{" + PrintMembers(a)) + ("" + "}" + right);
    } else {
      PrintMembersSplit(a + b, |a|);
      assert (a + b)[..|a|] == a && (a + b)[|a|..] == b;
      hide PrintMembers, Lead;
      var x, y := Lead(a), PrintMembers(b);
      assert left + "{" + (x + y) + "}" + right == (left + "{" + x) + (y + "}" + right);
    }
  }

  lemma NothingPrinted()
    ensures PrintMembers([]) == "" && Lead([]) == ""
  {
  }

  // Where the quoted key of member i starts (after its quote), and where the cut leaves off.
  function KeyAt(left: string, ms: seq<Member>, i: nat): nat
    requires i < |ms|
  {
    |Opening(left, ms, i)| + |ms[i].pre| + 1
  }

  // How many characters the value of member i takes.
  function ValLen(ms: seq<Member>, i: nat): nat
    requires i < |ms|
  {
    |Print(ms[i].val)|
  }

  function CutAt(left: string, ms: seq<Member>, i: nat): nat
    requires i < |ms|
  {
    InsAt(left, ms[..i], TrimFirst(ms[i + 1..]))
  }

  lemma TrimOfClosing(ms: seq<Member>, i: nat, right: string)
    requires i < |ms| && WfMembers(ms)
    ensures var s := TrimAfter(Closing(ms, i, right));
            && s == (if i + 1 == |ms| then "" else PrintMembers(TrimFirst(ms[i + 1..]))) + "}" + right
            && s != [] && (i + 1 < |ms| ==> s[0] != '}')
  {
    if i + 1 < |ms| {
      var rest := ms[i + 1..];
      assert rest[0] in ms && WfMember(rest[0]);
      hide PrintMembers, Wf, StrOk;
      TrimOfRest(rest, "}" + right);
      Assoc("," + PrintMembers(rest), "}", right);
      Assoc(PrintMembers(TrimFirst(rest)), "}", right);
    } else {
      assert "" + "}" + right == "}" + right;
    }
  }

  lemma CuttingIsOk(left: string, ms: seq<Member>, i: nat, right: string)
    requires i < |ms| && WfMembers(ms) && Cuttable(ms[i])
    ensures MemberCutting(left, ms, i, right).Ok()
  {
    assert ms[i] in ms && WfMember(ms[i]);
    FirstOfValue(ms[i].val, "");
    assert Print(ms[i].val) + "" == Print(ms[i].val);
    TrimOfClosing(ms, i, right);
    StartsOfClosing(ms, i, right);
    hide Print, PrintMembers, Opening, Ahead, Closing, Wf, StrOk, TrimAfter;
  }

  lemma MemberCuttingParts(left: string, ms: seq<Member>, i: nat, right: string)
    requires i < |ms| && ms[i].colon == ""
    ensures var c := MemberCutting(left, ms, i, right);
            && c.Text() == Around(left, ms, "", right)
            && c.KeyStart() == KeyAt(left, ms, i) >= 2
            && c.key == ms[i].key && |c.val| == ValLen(ms, i) && c.tail == Closing(ms, i, right)
            && c.head == Ahead(left, ms, i) && c.open == (if i == 0 then '{' else ',')
  {
    TextOfMemberCutting(left, ms, i, right);
    AroundIsPrint(left, ms, "", right);
    Positions(MemberCutting(left, ms, i, right));
    LastOfOpening(left, ms, i);
    hide Opening, Ahead, Closing, Around, Print, Cutting.Text, Cutting.KeyStart;
  }

  lemma StartsOfClosing(ms: seq<Member>, i: nat, right: string)
    requires i < |ms|
    ensures Closing(ms, i, right)[0] == if i + 1 == |ms| then '}' else ','
    ensures i + 1 == |ms| ==> Closing(ms, i, right) == "}" + right
  {
    hide PrintMembers;
  }

  lemma FrontOfOpening(left: string, ms: seq<Member>, i: nat, right: string)
    requires i < |ms|
    ensures var b := TrimFirst(ms[i + 1..]);
            && (b == [] <==> i + 1 == |ms|)
            && Back(b, right) == (if i + 1 == |ms| then "" else PrintMembers(b)) + "}" + right
            && Front(left, ms[..i], b) == (if b == [] && i > 0 then Ahead(left, ms, i) else Opening(left, ms, i))
  {
    NothingPrinted();
    hide PrintMembers, Lead;
    assert ms[..0] == [];
  }

  lemma CutResult(left: string, ms: seq<Member>, i: nat, right: string)
    requires i < |ms| && WfMembers(ms) && Cuttable(ms[i])
    ensures MemberCutting(left, ms, i, right).Without() == (Around(left, Removed(ms, i), "", right), CutAt(left, ms, i))
  {
    MemberCuttingParts(left, ms, i, right);
    TrimOfClosing(ms, i, right);
    StartsOfClosing(ms, i, right);
    FrontOfOpening(left, ms, i, right);
    LastOfOpening(left, ms, i);
    SplitAround(left, ms[..i], TrimFirst(ms[i + 1..]), right);
    hide Cutting.Text, Cutting.KeyStart, Cutting.ValStart, Cutting.Ok, Print, PrintMembers, Lead, TrimAfter, TrimFirst,
      Around, Cuttable, MemberCutting, Opening, Ahead, Closing, WfMembers, Front, Back;
    assert "" + "}" + right == "}" + right;
  }

  lemma MemberCuttingAt(left: string, ms: seq<Member>, i: nat, right: string)
    requires i < |ms| && WfMembers(ms) && Cuttable(ms[i])
    ensures var c := MemberCutting(left, ms, i, right);
            && c.Text() == Around(left, ms, "", right) && c.KeyStart() == KeyAt(left, ms, i) >= 2
            && c.key == ms[i].key && |c.val| == ValLen(ms, i)
            && c.Ok()
  {
    MemberCuttingParts(left, ms, i, right);
    CuttingIsOk(left, ms, i, right);
    hide Cutting.Text, Cutting.KeyStart, Around, KeyAt, MemberCutting, Opening, Closing, ValLen, WfMembers,
      Cuttable, Cutting.Ok, TrimAfter;
  }

  lemma CutRemovesMember(left: string, ms: seq<Member>, i: nat, right: string)
    requires i < |ms| && WfMembers(ms) && Cuttable(ms[i])
    ensures var t, k, n := Around(left, ms, "", right), KeyAt(left, ms, i), ValLen(ms, i);
            && 2 <= k && k + |ms[i].key| + 2 + n <= |t|
            && CutText(t, k, k + |ms[i].key|, n) == Some((Around(left, Removed(ms, i), "", right), CutAt(left, ms, i)))
  {
    hide *;
    MemberCuttingAt(left, ms, i, right);
    CutResult(left, ms, i, right);
    CutOfCutting(MemberCutting(left, ms, i, right));
  }

  // ----- Inserting a member -----------------------------------------------------------------------

  lemma JoinWith(left: string, l: string, p: string, x: string, y: string, right: string)
    ensures left + "{" + (l + (x + "," + y)) + "}" + right == (left + "{" + l) + "" + x + "," + (y + "}" + right)
    ensures left + "{" + ((p + ",") + x) + "}" + right == (left + "{" + p) + "," + x + "" + ("" + "}" + right)
    ensures left + "{" + ("" + x) + "}" + right == (left + "{" + "") + "" + x + "" + ("" + "}" + right)
  {
  }

  lemma SplitWith(left: string, a: seq<Member>, m: Member, b: seq<Member>, right: string)
    ensures Around(left, a + [m] + b, "", right) ==
            Front(left, a, b) + (if b == [] && a != [] then "," else "") + PrintMember(m)
            + (if b == [] then "" else ",") + Back(b, right)
  {
    var ms := a + [m] + b;
    PrintMembersSplit(ms, |a|);
    assert ms[..|a|] == a && ms[|a|..] == [m] + b;
    PrintMembersCons(m, b);
    if a != [] { LeadIsPrint(a); } else { NothingPrinted(); }
    assert b == [] ==> [m] + b == [m];
    hide PrintMembers, Lead, PrintMember;
    JoinWith(left, Lead(a), PrintMembers(a), PrintMember(m), PrintMembers(b), right);
  }

  lemma InsBetween(p: string, q: string, val: string)
    requires p != [] && q != []
    ensures InsText(p + q, |p|, val) ==
            if q[0] != '}' then p + "" + val + "," + q
            else if p[|p| - 1] == '{' then p + "" + val + "" + q
            else p + "," + val + "" + q
  {
    assert (p + q)[..|p|] == p && (p + q)[|p|..] == q;
  }

  lemma {:induction false} LastOfValue(v: Value)
    requires Wf(v)
    ensures var s := Print(v);
            s != []
            && s[|s| - 1] != '{' && s[|s| - 1] != ' ' && s[|s| - 1] != '\n' && s[|s| - 1] != ','
  {
    hide PrintItems, PrintMembers, WfItem, WfMember, StrOk, IsNumber;
  }

  lemma LastOf(x: string, y: string)
    ensures y != [] ==> x + y != [] && (x + y)[|x + y| - 1] == y[|y| - 1]
  {
  }

  lemma LastOfMember(m: Member)
    requires WfMember(m)
    ensures var s := PrintMember(m); s != [] && s[|s| - 1] != '{'
  {
    LastOfValue(m.val);
    assert m.post != [] ==> IsWs(m.post[|m.post| - 1]);
    hide Print, Wf;
    var h := "\"" + m.key + "\"" + m.colon + ":" + m.mid;
    LastOf(h, Print(m.val));
    LastOf(h + Print(m.val), m.post);
    assert m.post == [] ==> h + Print(m.val) + m.post == h + Print(m.val);
    LastOf(m.pre, h + Print(m.val) + m.post);
  }

  lemma {:induction false} LastOfMembers(ms: seq<Member>)
    requires ms != [] && WfMembers(ms)
    ensures var s := PrintMembers(ms); s != [] && s[|s| - 1] != '{'
  {
    assert ms[0] in ms;
    if |ms| == 1 {
      LastOfMember(ms[0]);
    } else {
      LastOfMembers(ms[1..]);
    }
    hide PrintMember, WfMember;
  }

  lemma EndsOfParts(left: string, a: seq<Member>, b: seq<Member>, right: string)
    requires WfMembers(a) && WfMembers(b)
    ensures var p, q := Front(left, a, b), Back(b, right);
            (q[0] == '}' <==> b == []) && (b == [] ==> (p[|p| - 1] == '{' <==> a == []))
  {
    if b != [] {
      assert b[0] in b && WfMember(b[0]);
      MembersStart(b, "}" + right);
      Assoc(PrintMembers(b), "}", right);
    } else if a != [] {
      LastOfMembers(a);
    }
    hide WfMember, PrintMembers, Tail;
  }

  lemma InsertAddsMember(left: string, a: seq<Member>, b: seq<Member>, m: Member, right: string)
    requires WfMembers(a) && WfMembers(b)
    ensures var t, k := Around(left, a + b, "", right), InsAt(left, a, b);
            1 <= k < |t| && InsText(t, k, PrintMember(m)) == Around(left, a + [m] + b, "", right)
  {
    var p, q := Front(left, a, b), Back(b, right);
    EndsOfParts(left, a, b, right);
    SplitAround(left, a, b, right);
    SplitWith(left, a, m, b, right);
    InsBetween(p, q, PrintMember(m));
    hide InsText, Around, Front, Back, PrintMember, WfMembers;
  }

  // ----- Replacing a member -----------------------------------------------------------------------

  // The text after cutting a member and inserting another at the place, None if a check fails.
  function SetText(t: string, keyStart: nat, keyEnd: nat, valLen: nat, val: string): Option<string>
    requires 2 <= keyStart <= keyEnd && keyEnd + 2 + valLen <= |t|
  {
    InsAfter(CutText(t, keyStart, keyEnd, valLen), val)
  }

  function InsAfter(cut: Option<(string, nat)>, val: string): Option<string> {
    match cut
    case None => None
    case Some((u, pos)) => if 1 <= pos < |u| then Some(InsText(u, pos, val)) else None
  }

  lemma TrimmedAreWf(ms: seq<Member>)
    requires WfMembers(ms)
    ensures WfMembers(TrimFirst(ms))
  {
    if ms != [] {
      assert ms[0] in ms && WfMember(ms[0]);
      TrimmedStart(ms[0].pre);
      var us := TrimFirst(ms);
      forall m | m in us ensures WfMember(m) {
        assert m != us[0] ==> m in ms;
      }
    }
  }

  lemma PlainIsWf(key: string, v: Value)
    requires StrOk(key) && Wf(v)
    ensures WfMember(Plain(key, v)) && Cuttable(Plain(key, v))
  {
  }

  lemma MemberText(id: string, v: Value)
    ensures PrintMember(Plain(id, v)) == "\"" + id + "\":" + Print(v)
  {
    hide Print;
    var p := "\"" + id + "\"" + "" + ":" + "" + Print(v) + "";
    assert MemberBody(Plain(id, v)) == p;
    assert p == "\"" + id + "\":" + Print(v);
    assert "" + p == p;
  }

  // A letter and a digit.
  lemma ShortMember(key: string, text: string)
    requires |key| == 1 && 'a' <= key[0] <= 'z' && |text| == 1 && IsDigit(text[0])
    ensures WfMember(Plain(key, Prim(text))) && PrintMember(Plain(key, Prim(text))) == "\"" + key + "\":" + text
  {
    MemberText(key, Prim(text));
    assert text[1..] == "" && key[1..] == "";
    assert Digits(text) == 1 && IsNumber(text) && StrOk(key);
  }

  lemma RestIsWf(ms: seq<Member>, i: nat)
    requires WfMembers(ms) && i < |ms|
    ensures WfMembers(ms[..i]) && WfMembers(TrimFirst(ms[i + 1..]))
  {
    TrimmedAreWf(ms[i + 1..]);
  }

  lemma ReplacedAreWf(ms: seq<Member>, i: nat, v: Value)
    requires WfMembers(ms) && i < |ms| && Wf(v)
    ensures WfMembers(Replaced(ms, i, Plain(ms[i].key, v)))
  {
    RestIsWf(ms, i);
    assert ms[i] in ms && WfMember(ms[i]);
    PlainIsWf(ms[i].key, v);
    hide WfMember, TrimFirst;
  }

  // Setting member i of the object after left to m makes u of the text t: the key is where _cfg_cut
  // takes it to be, and every check holds.
  predicate Sets(t: string, left: string, ms: seq<Member>, i: nat, m: Member, u: string)
    requires i < |ms|
  {
    var k, n := KeyAt(left, ms, i), ValLen(ms, i);
    && 2 <= k && k + |ms[i].key| + 2 + n <= |t|
    && SetText(t, k, k + |ms[i].key|, n, PrintMember(m)) == Some(u)
  }

  lemma SetReplacesMember(left: string, ms: seq<Member>, i: nat, m: Member, right: string)
    requires i < |ms| && WfMembers(ms) && Cuttable(ms[i])
    ensures Sets(Around(left, ms, "", right), left, ms, i, m, Around(left, Replaced(ms, i, m), "", right))
  {
    var a, b := ms[..i], TrimFirst(ms[i + 1..]);
    assert Removed(ms, i) == a + b && Replaced(ms, i, m) == a + [m] + b && CutAt(left, ms, i) == InsAt(left, a, b);
    RestIsWf(ms, i);
    hide Around, Cuttable, CutText, InsText, KeyAt, ValLen, PrintMember, TrimFirst, WfMembers, InsAt, CutAt, Removed,
      Replaced;
    CutRemovesMember(left, ms, i, right);
    InsertAddsMember(left, a, b, m, right);
  }
}
