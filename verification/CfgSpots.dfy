/** Where the parts of a member are in a text, and where the pointers of _cfg_cut of cfg/cfg.cpp stop,
    whatever white space there is. */
module CfgSpots {
  import opened JsonText
  import opened CfgText
  import opened CfgSet
  import opened CfgDoc

  // ----- Where the pointers of the cut stop -------------------------------------------------------

  lemma {:induction false} BackOverStops(t: string, j: nat, i: int)
    requires j <= i < |t| && !Before(t[j])
    ensures BackOver(t, i) >= j
    decreases i
  {
    if Before(t[i]) {
      BackOverStops(t, j, i - 1);
    }
  }

  lemma {:induction false} OverInsideStops(t: string, i: nat, j: nat)
    requires i <= j < |t| && !Inside(t[j])
    ensures OverInside(t, i) <= j
    decreases j - i
  {
    if Inside(t[i]) {
      OverInsideStops(t, i + 1, j);
    }
  }

  lemma {:induction false} OverAfterStops(t: string, i: nat, j: nat)
    requires i <= j < |t| && !After(t[j])
    ensures OverAfter(t, i) <= j
    decreases j - i
  {
    if After(t[i]) {
      OverAfterStops(t, i + 1, j);
    }
  }

  // The positions of a member's parts in a text.
  datatype Spots = Spots(open: nat, key: nat, colon: nat, mid: nat, val: nat, post: nat, end: nat)

  function SpotsOf(o: string, m: Member): Spots {
    var k := |o| + |m.pre| + 1;
    var c := k + |m.key| + 1;
    var d := c + |m.colon| + 1;
    var v := d + |m.mid|;
    var p := v + |Print(m.val)|;
    Spots(|o|, k, c, d, v, p, p + |m.post|)
  }

  lemma HeadSpots(o: string, m: Member, rest: string)
    ensures var t, p := (o + HeadOf(m)) + rest, SpotsOf(o, m);
            && p.open <= p.key - 1 && p.colon < p.mid <= p.val
            && |t| == p.val + |rest| && t[..p.open] == o && t[p.open..p.key - 1] == m.pre
            && t[p.colon..p.mid - 1] == m.colon && t[p.mid - 1] == ':' && t[p.mid..p.val] == m.mid && t[p.val..] == rest
    ensures var p := SpotsOf(o, m); p.post == p.val + |Print(m.val)| && p.end == p.post + |m.post|
  {
    hide Print;
    var t := o + m.pre + "\"" + m.key + "\"" + m.colon + ":" + m.mid + rest;
    assert (o + (m.pre + ("\"" + m.key + "\"" + m.colon + ":" + m.mid))) + rest == t;
  }

  lemma TailSpots(t: string, v: nat, val: string, post: string, c: string)
    requires v <= |t| && t[v..] == val + (post + c)
    ensures var p := v + |val|;
            |t| == p + |post| + |c| && t[v..p] == val && t[p..p + |post|] == post && t[p + |post|..] == c
  {
  }

  lemma JoinMember(o: string, head: string, val: string, post: string, c: string)
    ensures o + (head + val + post) + c == (o + head) + (val + (post + c))
  {
  }

  lemma AtSpots(o: string, m: Member, c: string)
    ensures var t, p := o + PrintMember(m) + c, SpotsOf(o, m);
            && |t| == p.end + |c| && t[..p.open] == o && t[p.end..] == c
            && t[p.open..p.key - 1] == m.pre && t[p.colon..p.mid - 1] == m.colon && t[p.mid - 1] == ':'
            && t[p.mid..p.val] == m.mid && t[p.val..p.post] == Print(m.val) && t[p.post..p.end] == m.post
  {
    PrintHead(m);
    hide Print, PrintMember;
    var v := Print(m.val);
    var rest := v + (m.post + c);
    HeadSpots(o, m, rest);
    hide HeadOf, SpotsOf;
    JoinMember(o, HeadOf(m), v, m.post, c);
    TailSpots(o + PrintMember(m) + c, SpotsOf(o, m).val, v, m.post, c);
  }

  // No quotes and no closing braces.
  predicate Clean(t: string, lo: nat, hi: nat) {
    lo <= hi <= |t| && forall j | lo <= j < hi :: t[j] != '"' && t[j] != '}'
  }

  lemma CleanSlice(t: string, lo: nat, hi: nat, s: string)
    requires lo <= hi <= |t| && t[lo..hi] == s && forall i | 0 <= i < |s| :: IsWs(s[i]) || PrimChar(s[i])
    ensures Clean(t, lo, hi)
  {
    forall j | lo <= j < hi ensures t[j] != '"' && t[j] != '}' {
      SliceAt(t, lo, hi, j);
    }
  }

  // A number, a string, or a name of the language.
  predicate Scalar(v: Value) {
    v.Prim? || v.Str?
  }

  // The text t is o, the member m and c, and p says where the parts of m are.
  predicate Laid(t: string, o: string, m: Member, c: string, p: Spots) {
    && p == SpotsOf(o, m) && |t| == p.end + |c|
    && t[..p.open] == o && t[p.open..p.key - 1] == m.pre && t[p.colon..p.mid - 1] == m.colon && t[p.mid - 1] == ':'
    && t[p.mid..p.val] == m.mid && t[p.val..p.post] == Print(m.val) && t[p.post..p.end] == m.post && t[p.end..] == c
  }

  // From a number's key to what follows the number there are no quotes and no braces.
  lemma Region(t: string, o: string, m: Member, c: string, p: Spots)
    requires WfMember(m) && m.val.Prim? && Laid(t, o, m, c, p)
    ensures Clean(t, p.colon, p.end) && p.post > 0 && !IsWs(t[p.post - 1]) && PrimChar(t[p.post - 1])
  {
    FirstOfValue(m.val, "");
    var x := m.val.text;
    assert forall i | 0 <= i < |x| :: PrimChar(x[i]);
    hide IsNumber, StrOk;
    CleanSlice(t, p.colon, p.mid - 1, m.colon);
    CleanSlice(t, p.mid, p.val, m.mid);
    CleanSlice(t, p.val, p.post, x);
    CleanSlice(t, p.post, p.end, m.post);
    SliceAt(t, p.val, p.post, p.post - 1);
  }

  // A member at p in t, after a brace or comma and before one.
  predicate MemberAt(t: string, p: Spots) {
    && 1 <= p.open < p.key < p.colon < p.mid <= p.val < p.post <= p.end < |t|
    && (t[p.open - 1] == '{' || t[p.open - 1] == ',') && (t[p.end] == ',' || t[p.end] == '}')
    && (forall j | p.open <= j < p.key - 1 :: IsWs(t[j])) && (forall j | p.colon <= j < p.mid - 1 :: IsWs(t[j]))
    && (forall j | p.mid <= j < p.val :: IsWs(t[j])) && (forall j | p.post <= j < p.end :: IsWs(t[j]))
    && t[p.mid - 1] == ':' && !Inside(t[p.val]) && !After(t[p.post - 1])
  }

  predicate CuttableAt(t: string, p: Spots)
    requires MemberAt(t, p)
  {
    && (forall j | p.open <= j < p.key - 1 :: Before(t[j])) && p.colon + 1 == p.mid
    && (forall j | p.mid <= j < p.val :: Inside(t[j])) && (forall j | p.post <= j < p.end :: After(t[j]))
  }

  lemma SliceHas(t: string, lo: nat, hi: nat, s: string)
    requires lo <= hi <= |t| && t[lo..hi] == s
    ensures (forall j | lo <= j < hi :: Before(t[j])) <==> (forall i | 0 <= i < |s| :: Before(s[i]))
    ensures (forall j | lo <= j < hi :: Inside(t[j])) <==> (forall i | 0 <= i < |s| :: Inside(s[i]))
    ensures (forall j | lo <= j < hi :: After(t[j])) <==> (forall i | 0 <= i < |s| :: After(s[i]))
    ensures (forall j | lo <= j < hi :: IsWs(t[j])) <==> AllWs(s)
  {
    assert forall i | 0 <= i < |s| :: s[i] == t[lo + i];
    assert forall j | lo <= j < hi :: t[j] == s[j - lo];
  }

  lemma LaidSpaces(t: string, o: string, m: Member, c: string, p: Spots)
    requires WfMember(m) && Laid(t, o, m, c, p)
    ensures (forall j | p.open <= j < p.key - 1 :: IsWs(t[j])) && (forall j | p.colon <= j < p.mid - 1 :: IsWs(t[j]))
    ensures (forall j | p.mid <= j < p.val :: IsWs(t[j])) && (forall j | p.post <= j < p.end :: IsWs(t[j]))
  {
    hide Before, Inside, After, IsWs, AllWs, Wf, StrOk, Print;
    SliceHas(t, p.open, p.key - 1, m.pre);
    SliceHas(t, p.colon, p.mid - 1, m.colon);
    SliceHas(t, p.mid, p.val, m.mid);
    SliceHas(t, p.post, p.end, m.post);
  }

  lemma LaidEnds(t: string, o: string, m: Member, c: string, p: Spots)
    requires WfMember(m) && Laid(t, o, m, c, p) && o != [] && c != []
    ensures p.val < p.post && !Inside(t[p.val]) && !After(t[p.post - 1])
    ensures t[p.open - 1] == o[|o| - 1] && t[p.end] == c[0]
  {
    FirstOfValue(m.val, "");
    LastOfValue(m.val);
    hide Print, IsWs, AllWs, Wf, StrOk, PrimChar;
    var x := Print(m.val);
    assert x + "" == x;
    SliceAt(t, p.val, p.post, p.val);
    SliceAt(t, p.val, p.post, p.post - 1);
    SliceAt(t, 0, p.open, p.open - 1);
    assert t[0..p.open] == o && t[p.end..|t|] == c;
    SliceAt(t, p.end, |t|, p.end);
    assert !Inside(x[0]) by { NotInsideWs(x[0]); }
  }

  lemma NotInsideWs(c: char)
    requires !IsWs(c)
    ensures !Inside(c)
  {
  }

  lemma LaidMember(t: string, o: string, m: Member, c: string, p: Spots)
    requires WfMember(m) && Laid(t, o, m, c, p)
    requires o != [] && (o[|o| - 1] == '{' || o[|o| - 1] == ',') && c != [] && (c[0] == ',' || c[0] == '}')
    ensures MemberAt(t, p) && t[..p.open] == o
  {
    LaidSpaces(t, o, m, c, p);
    LaidEnds(t, o, m, c, p);
    hide Before, Inside, After, IsWs, AllWs, Wf, StrOk, Print, WfMember;
  }

  lemma LaidCuttable(t: string, o: string, m: Member, c: string, p: Spots)
    requires Laid(t, o, m, c, p) && MemberAt(t, p)
    ensures CuttableAt(t, p) <==> Cuttable(m)
  {
    SliceHas(t, p.open, p.key - 1, m.pre);
    SliceHas(t, p.mid, p.val, m.mid);
    SliceHas(t, p.post, p.end, m.post);
    hide Before, Inside, After, IsWs, AllWs, MemberAt, Print;
  }

  // White space that is not expected keeps the end pointer of the cut from the end of the member.
  lemma EndStops(t: string, p: Spots)
    requires MemberAt(t, p) && !CuttableAt(t, p) && forall j | p.open <= j < p.key - 1 :: Before(t[j])
    ensures var v := OverInside(t, p.colon + 1);
            v + p.post - p.val <= p.end && p.colon < OverAfter(t, v + p.post - p.val) < p.end
  {
    hide Before, Inside, After, IsWs, OverInside, OverAfter;
    var v := OverInside(t, p.colon + 1);
    ValueStops(t, p);
    EndStopsBefore(t, p, v + p.post - p.val);
  }

  lemma ValueStops(t: string, p: Spots)
    requires MemberAt(t, p)
    ensures var v := OverInside(t, p.colon + 1);
            v <= p.val && (v == p.val ==> p.colon + 1 == p.mid && forall j | p.mid <= j < p.val :: Inside(t[j]))
  {
    NotInsideColon();
    hide Before, Inside, After, IsWs;
    OverInsideStops(t, p.colon + 1, p.val);
    if p.colon + 1 < p.mid {
      OverInsideStops(t, p.colon + 1, p.mid - 1);
    } else if i :| p.mid <= i < p.val && !Inside(t[i]) {
      OverInsideStops(t, p.colon + 1, i);
    }
    hide OverInside;
  }

  lemma NotInsideColon()
    ensures !Inside(':')
  {
  }

  lemma EndStopsBefore(t: string, p: Spots, v: nat)
    requires p.post <= p.end <= |t| && v <= p.post && p.colon < v
    requires (v < p.post && !After(t[p.post - 1])) || (exists j | p.post <= j < p.end :: !After(t[j]))
    ensures p.colon < OverAfter(t, v) < p.end
  {
    if v < p.post && !After(t[p.post - 1]) {
      OverAfterStops(t, v, p.post - 1);
    } else {
      var i :| p.post <= i < p.end && !After(t[i]);
      OverAfterStops(t, v, i);
    }
  }

  // A carriage return before the key fails the check.
  lemma StartStops(t: string, p: Spots)
    requires MemberAt(t, p)
    ensures var b := BackOver(t, p.key - 2);
            if forall j | p.open <= j < p.key - 1 :: Before(t[j]) then b == p.open - 1 else b >= p.open && IsWs(t[b])
  {
    if i :| p.open <= i < p.key - 1 && !Before(t[i]) {
      BackOverStops(t, i, p.key - 2);
    } else {
      BackOverRun(t, p.open, p.key - 2);
    }
  }
}
