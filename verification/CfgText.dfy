/** In-place editing of a JSON text: _cfg_cut and _cfg_ins of cfg/cfg.cpp, first as functions on the
    text, with what they do to the object the text stands for. */
module CfgText {
  import opened Wrappers
  import opened JsonText

  // ----- The two edits on texts -------------------------------------------------------------------

  predicate Before(c: char) { c == ' ' || c == '\t' || c == '\n' }     // skipped backwards from a key
  predicate Inside(c: char) { c == ' ' || c == '\t' }                  // skipped after the colon
  predicate After(c: char) { c == ',' || c == ' ' || c == '\n' }       // skipped after the value

  // The last position at or before i that Before does not skip, -1 if there is none.
  function BackOver(t: string, i: int): (r: int)
    requires -1 <= i < |t|
    ensures -1 <= r <= i && (r >= 0 ==> !Before(t[r]))
    decreases i + 1
  {
    if i >= 0 && Before(t[i]) then BackOver(t, i - 1) else i
  }

  function OverInside(t: string, i: nat): (r: nat)
    requires i <= |t|
    ensures i <= r <= |t|
    decreases |t| - i
  {
    if i < |t| && Inside(t[i]) then OverInside(t, i + 1) else i
  }

  function OverAfter(t: string, i: nat): (r: nat)
    requires i <= |t|
    ensures i <= r <= |t| && (r < |t| ==> !After(t[r]))
    decreases |t| - i
  {
    if i < |t| && After(t[i]) then OverAfter(t, i + 1) else i
  }

  // _cfg_cut of a key at [keyStart, keyEnd) whose value takes valLen characters, quotes included:
  // the new text and where the member was.  None is the failing check().
  function CutText(t: string, keyStart: nat, keyEnd: nat, valLen: nat): (r: Option<(string, nat)>)
    requires 2 <= keyStart <= keyEnd && keyEnd + 2 + valLen <= |t|
    ensures r.Some? ==> r.value.1 <= |r.value.0|
  {
    var b := BackOver(t, keyStart - 2);
    var v := OverInside(t, keyEnd + 2);
    if b < 0 || (t[b] != '{' && t[b] != ',') || v + valLen > |t| then None
    else
      var e := OverAfter(t, v + valLen);
      var s := if t[b] == ',' && e < |t| && t[e] == '}' then b else b + 1;
      Some((t[..s] + t[e..], s))
  }

  // _cfg_ins of a member's text at a position inside an object.
  function InsText(t: string, pos: nat, val: string): string
    requires pos < |t| && (pos == 0 ==> t[0] != '}')
  {
    if t[pos] == '}' && t[pos - 1] == '{' then t[..pos] + val + t[pos..]
    else if t[pos] == '}' then t[..pos] + "," + val + t[pos..]
    else t[..pos] + val + "," + t[pos..]
  }

  // ----- Objects with one member marked -----------------------------------------------------------

  // White space the cut can deal with: none before the colon, no carriage return before the key, no
  // line break after the colon, and after the value only spaces and line feeds.
  predicate Cuttable(m: Member) {
    && (forall i | 0 <= i < |m.pre| :: Before(m.pre[i]))
    && m.colon == ""
    && (forall i | 0 <= i < |m.mid| :: Inside(m.mid[i]))
    && (forall i | 0 <= i < |m.post| :: After(m.post[i]))
  }

  function TrimAfter(s: string): (r: string)
    ensures |r| <= |s|
  {
    if s != [] && After(s[0]) then TrimAfter(s[1..]) else s
  }

  // The member left at the place of the cut loses its leading spaces and line feeds.
  function TrimFirst(ms: seq<Member>): seq<Member> {
    if ms == [] then [] else [ms[0].(pre := TrimAfter(ms[0].pre))] + ms[1..]
  }

  function Removed(ms: seq<Member>, i: nat): seq<Member>
    requires i < |ms|
  {
    ms[..i] + TrimFirst(ms[i + 1..])
  }

  function Plain(key: string, v: Value): Member {
    Member("", key, "", "", v, "")
  }

  function Replaced(ms: seq<Member>, i: nat, m: Member): seq<Member>
    requires i < |ms|
  {
    ms[..i] + [m] + TrimFirst(ms[i + 1..])
  }

  // The text from after an object's opening brace to its closing brace, and positions within it.
  function Inner(ms: seq<Member>, ws: string): string {
    if ms == [] then ws else PrintMembers(ms)
  }

  // The members before position i, each with the comma after it.
  function Lead(ms: seq<Member>): string {
    if ms == [] then "" else PrintMember(ms[0]) + "," + Lead(ms[1..])
  }

  lemma {:induction false} PrintMembersSplit(ms: seq<Member>, i: nat)
    requires i < |ms|
    ensures PrintMembers(ms) == Lead(ms[..i]) + PrintMembers(ms[i..])
  {
    if i == 0 {
      assert ms[..0] == [] && ms[0..] == ms;
    } else {
      PrintMembersSplit(ms[1..], i - 1);
      assert ms[..i][1..] == ms[1..][..i - 1] && ms[1..][i - 1..] == ms[i..];
      assert ms[..i][0] == ms[0];
    }
  }

  // ----- What the pointers of _cfg_cut find -------------------------------------------------------

  lemma {:induction false} BackOverRun(t: string, lo: nat, hi: int)
    requires lo <= hi + 1 <= |t| && (forall i | lo <= i <= hi :: Before(t[i]))
    ensures BackOver(t, hi) == BackOver(t, lo - 1)
    decreases hi + 1
  {
    if lo <= hi {
      BackOverRun(t, lo, hi - 1);
    }
  }

  lemma {:induction false} OverInsideRun(t: string, lo: nat, hi: nat)
    requires lo <= hi <= |t| && (forall i | lo <= i < hi :: Inside(t[i])) && (hi < |t| ==> !Inside(t[hi]))
    ensures OverInside(t, lo) == hi
    decreases hi - lo
  {
    if lo < hi {
      OverInsideRun(t, lo + 1, hi);
    }
  }

  lemma {:induction false} TrimSkips(w: string, x: string)
    requires forall i | 0 <= i < |w| :: After(w[i])
    ensures TrimAfter(w + x) == TrimAfter(x)
  {
    if w == [] {
      assert w + x == x;
    } else {
      assert (w + x)[1..] == w[1..] + x;
      TrimSkips(w[1..], x);
    }
  }

  lemma {:induction false} OverAfterIsTrim(t: string, i: nat)
    requires i <= |t|
    ensures t[OverAfter(t, i)..] == TrimAfter(t[i..])
    decreases |t| - i
  {
    if i < |t| && After(t[i]) {
      OverAfterIsTrim(t, i + 1);
      assert t[i..][1..] == t[i + 1..];
    }
  }

  // A text with one member picked out: what opens it (a brace or the comma before it), its parts,
  // and the comma or brace that follows.
  datatype Cutting = Cutting(head: string, open: char, pre: string, key: string, mid: string, val: string,
                             post: string, tail: string) {
    function Text(): string {
      head + [open] + pre + "\"" + key + "\":" + mid + val + post + tail
    }

    function KeyStart(): nat {
      |head| + 1 + |pre| + 1
    }

    function ValStart(): nat {
      KeyStart() + |key| + 2 + |mid|
    }

    // The text without the member, and where it was.
    function Without(): (string, nat) {
      if open == ',' && tail != [] && tail[0] == '}' then (head + tail, |head|)
      else (head + [open] + TrimAfter(tail), |head| + 1)
    }

    predicate Ok() {
      && (open == '{' || open == ',')
      && (forall i | 0 <= i < |pre| :: Before(pre[i]))
      && (forall i | 0 <= i < |mid| :: Inside(mid[i]))
      && (forall i | 0 <= i < |post| :: After(post[i]))
      && val != [] && !Inside(val[0])
      && tail != [] && (tail[0] == '}' || (tail[0] == ',' && TrimAfter(tail) != [] && TrimAfter(tail)[0] != '}'))
    }
  }

  lemma PartsOfCutting(c: Cutting)
    ensures var t, k, v := c.Text(), c.KeyStart(), c.ValStart();
            && t[..|c.head|] == c.head && t[|c.head|] == c.open
            && t[|c.head| + 1..k - 1] == c.pre
            && t[k..k + |c.key|] == c.key
            && t[k + |c.key| + 2..v] == c.mid
            && t[v..v + |c.val|] == c.val
            && t[v + |c.val|..] == c.post + c.tail
            && |t| == v + |c.val| + |c.post| + |c.tail|
  {
  }

  lemma SliceAt(t: string, lo: nat, hi: nat, i: nat)
    requires lo <= i < hi <= |t|
    ensures t[i] == t[lo..hi][i - lo]
  {
  }

  lemma BackPointer(t: string, head: nat, k: nat, pre: string)
    requires head < |t| && !Before(t[head]) && head + 1 + |pre| == k - 1 < |t| && t[head + 1..k - 1] == pre
    requires forall i | 0 <= i < |pre| :: Before(pre[i])
    ensures BackOver(t, k - 2) == head
  {
    forall i | head + 1 <= i < k - 1
      ensures Before(t[i])
    {
      SliceAt(t, head + 1, k - 1, i);
    }
    BackOverRun(t, head + 1, k - 2);
  }

  lemma ValuePointer(t: string, k: nat, v: nat, mid: string)
    requires k + |mid| == v < |t| && t[k..v] == mid && !Inside(t[v])
    requires forall i | 0 <= i < |mid| :: Inside(mid[i])
    ensures OverInside(t, k) == v
  {
    forall i | k <= i < v
      ensures Inside(t[i])
    {
      SliceAt(t, k, v, i);
    }
    OverInsideRun(t, k, v);
  }

  lemma CutStarts(c: Cutting)
    requires c.Ok()
    ensures BackOver(c.Text(), c.KeyStart() - 2) == |c.head|
    ensures OverInside(c.Text(), c.KeyStart() + |c.key| + 2) == c.ValStart()
  {
    var t, k, v := c.Text(), c.KeyStart(), c.ValStart();
    PartsOfCutting(c);
    Positions(c);
    hide Cutting.Text, Cutting.KeyStart, Cutting.ValStart;
    SliceAt(t, v, v + |c.val|, v);
    BackPointer(t, |c.head|, k, c.pre);
    ValuePointer(t, k + |c.key| + 2, v, c.mid);
  }

  lemma Positions(c: Cutting)
    ensures c.KeyStart() == |c.head| + |c.pre| + 2 && c.ValStart() == c.KeyStart() + |c.key| + 2 + |c.mid|
  {
  }

  lemma CutEnds(c: Cutting)
    requires c.Ok()
    ensures var e := OverAfter(c.Text(), c.ValStart() + |c.val|); c.Text()[e..] == TrimAfter(c.tail)
  {
    var t, p := c.Text(), c.ValStart() + |c.val|;
    PartsOfCutting(c);
    OverAfterIsTrim(t, p);
    TrimSkips(c.post, c.tail);
  }

  lemma CutOfCutting(c: Cutting)
    requires c.Ok()
    ensures c.KeyStart() + |c.key| + 2 + |c.val| <= |c.Text()|
    ensures CutText(c.Text(), c.KeyStart(), c.KeyStart() + |c.key|, |c.val|)
            == Some(c.Without())
  {
    hide Cutting.Text, Cutting.KeyStart, Cutting.ValStart, OverAfter, OverInside, BackOver, Before, Inside;
    var t := c.Text();
    PartsOfCutting(c);
    CutStarts(c);
    CutEnds(c);
    Positions(c);
    JoinAround(t, |c.head|, OverAfter(t, c.ValStart() + |c.val|));
  }

  lemma JoinAround(t: string, b: nat, e: nat)
    requires b < |t| && e <= |t|
    ensures t[..b + 1] + t[e..] == t[..b] + [t[b]] + t[e..]
    ensures (e < |t| <==> t[e..] != []) && (e < |t| ==> t[e] == t[e..][0])
  {
  }

  // ----- The edits on an object inside a text -----------------------------------------------------

  lemma {:induction false} LeadIsPrint(ms: seq<Member>)
    requires ms != []
    ensures Lead(ms) == PrintMembers(ms) + ","
  {
    if |ms| > 1 {
      LeadIsPrint(ms[1..]);
    } else {
      assert ms[1..] == [];
    }
  }

  lemma ObjectAround(ms: seq<Member>, i: nat)
    requires i < |ms|
    ensures Print(Obj(ms, "")) == "{" + Lead(ms[..i]) + PrintMembers(ms[i..]) + "}"
    ensures PrintMembers(ms[i..])
            == PrintMember(ms[i]) + (if i + 1 == |ms| then "" else "," + PrintMembers(ms[i + 1..]))
  {
    PrintMembersSplit(ms, i);
    assert ms[i..][1..] == ms[i + 1..];
    hide PrintMember;
  }

  // What stands in front of member i up to and including the brace or comma that opens it.
  function Opening(left: string, ms: seq<Member>, i: nat): (s: string)
    requires i < |ms|
    ensures s != []
  {
    left + "{" + Lead(ms[..i])
  }

  // The same without that brace or comma.
  function Ahead(left: string, ms: seq<Member>, i: nat): string
    requires i < |ms|
  {
    if i == 0 then left else left + "{" + PrintMembers(ms[..i])
  }

  lemma LastOfOpening(left: string, ms: seq<Member>, i: nat)
    requires i < |ms|
    ensures Opening(left, ms, i) == Ahead(left, ms, i) + [if i == 0 then '{' else ',']
  {
    if i > 0 {
      LeadIsPrint(ms[..i]);
      hide Lead, PrintMembers;
      Assoc(left + "{", PrintMembers(ms[..i]), ",");
    } else {
      assert ms[..0] == [];
    }
  }

  function Closing(ms: seq<Member>, i: nat, right: string): (s: string)
    requires i < |ms|
    ensures s != []
  {
    (if i + 1 == |ms| then "" else "," + PrintMembers(ms[i + 1..])) + "}" + right
  }

  function MemberCutting(left: string, ms: seq<Member>, i: nat, right: string): Cutting
    requires i < |ms|
  {
    Cutting(Ahead(left, ms, i), if i == 0 then '{' else ',', ms[i].pre, ms[i].key, ms[i].mid, Print(ms[i].val),
            ms[i].post, Closing(ms, i, right))
  }

  lemma TextAsMiddle(c: Cutting)
    ensures c.Text() == (c.head + [c.open]) + (c.pre + "\"" + c.key + "\":" + c.mid + c.val + c.post) + c.tail
  {
  }

  lemma PrintWithoutColonSpace(m: Member)
    requires m.colon == ""
    ensures PrintMember(m) == m.pre + "\"" + m.key + "\":" + m.mid + Print(m.val) + m.post
  {
    hide Print;
  }

  lemma AroundMiddle(left: string, lead: string, p: string, more: string, right: string)
    ensures left + ("{" + lead + (p + more) + "}") + right == (left + "{" + lead) + p + (more + "}" + right)
  {
  }

  lemma DropLast(o: string)
    requires o != []
    ensures o[..|o| - 1] + [o[|o| - 1]] == o
  {
  }

  lemma TextOfMemberCutting(left: string, ms: seq<Member>, i: nat, right: string)
    requires i < |ms| && ms[i].colon == ""
    ensures MemberCutting(left, ms, i, right).Text() == left + Print(Obj(ms, "")) + right
  {
    var more := if i + 1 == |ms| then "" else "," + PrintMembers(ms[i + 1..]);
    ObjectAround(ms, i);
    PrintWithoutColonSpace(ms[i]);
    TextAsMiddle(MemberCutting(left, ms, i, right));
    LastOfOpening(left, ms, i);
    hide PrintMember, PrintMembers, Lead, Print, Cutting.Text, Ahead;
    AroundMiddle(left, Lead(ms[..i]), PrintMember(ms[i]), more, right);
  }

  lemma {:induction false} TrimStopsAt(w: string, x: string)
    requires x != [] && !After(x[0])
    ensures TrimAfter(w + x) == TrimAfter(w) + x
  {
    if w == [] {
      assert w + x == x;
    } else {
      assert (w + x)[1..] == w[1..] + x;
      TrimStopsAt(w[1..], x);
    }
  }

  lemma Assoc(a: string, b: string, c: string)
    ensures (a + b) + c == a + (b + c)
  {
  }

  // Members printed, from the first one's opening quote on.
  function Tail(ms: seq<Member>): (s: string)
    requires ms != []
    ensures s != [] && s[0] == '"'
  {
    MemberBody(ms[0]) + (if |ms| == 1 then "" else "," + PrintMembers(ms[1..]))
  }

  lemma PrintMembersFromTail(ms: seq<Member>)
    requires ms != []
    ensures PrintMembers(ms) == ms[0].pre + Tail(ms)
  {
    hide MemberBody;
    if |ms| == 1 {
      assert Tail(ms) == MemberBody(ms[0]);
    } else {
      Assoc(ms[0].pre, MemberBody(ms[0]), "," + PrintMembers(ms[1..]));
      Assoc(PrintMember(ms[0]), ",", PrintMembers(ms[1..]));
    }
  }

  lemma TailOfTrimmed(ms: seq<Member>)
    requires ms != []
    ensures TrimFirst(ms) != [] && TrimFirst(ms)[0].pre == TrimAfter(ms[0].pre) && Tail(TrimFirst(ms)) == Tail(ms)
  {
    assert TrimFirst(ms)[1..] == ms[1..];
    hide PrintMembers, TrimAfter;
    assert MemberBody(TrimFirst(ms)[0]) == MemberBody(ms[0]);
  }

  lemma MembersStart(ms: seq<Member>, r: string)
    requires ms != []
    ensures PrintMembers(ms) + r == ms[0].pre + (Tail(ms) + r)
    ensures PrintMembers(TrimFirst(ms)) + r == TrimAfter(ms[0].pre) + (Tail(ms) + r)
  {
    PrintMembersFromTail(ms);
    TailOfTrimmed(ms);
    PrintMembersFromTail(TrimFirst(ms));
    hide PrintMembers, Tail, TrimAfter, TrimFirst;
    Assoc(ms[0].pre, Tail(ms), r);
    Assoc(TrimAfter(ms[0].pre), Tail(ms), r);
  }

  lemma TrimOfRest(ms: seq<Member>, r: string)
    requires ms != [] && AllWs(ms[0].pre)
    ensures var s := TrimAfter("," + PrintMembers(ms) + r);
            s == PrintMembers(TrimFirst(ms)) + r && s != [] && s[0] != '}'
  {
    var pre, x := ms[0].pre, Tail(ms) + r;
    MembersStart(ms, r);
    Assoc(",", PrintMembers(ms), r);
    Assoc(",", pre, x);
    TrimmedStart(pre);
    TrimStopsAt("," + pre, x);
    assert ("," + pre)[1..] == pre;
    hide PrintMembers, Tail, TrimFirst;
    assert TrimAfter("," + pre) == TrimAfter(pre);
  }

  lemma {:induction false} TrimmedStart(w: string)
    requires AllWs(w)
    ensures AllWs(TrimAfter(w))
  {
    if w != [] && After(w[0]) {
      TrimmedStart(w[1..]);
    }
  }
}
