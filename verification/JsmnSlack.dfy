/** Commas and white space between the members of an object, of which jsmn_parse takes any number. */
module JsmnSlack {
  import opened Wrappers
  import opened JsonText
  import opened CfgWalk
  import opened Jsmn
  import opened JsmnTree
  import opened JsmnRead

  predicate Slack(j: string) {
    forall i | 0 <= i < |j| :: IsWs(j[i]) || j[i] == ','
  }

  // Where a value would belong to the container, it changes nothing.
  lemma {:induction false} AfterSlack(b: seq<Raw>, kind: Kind, at: nat, n: nat, x: seq<Raw>, j: string, r: string,
      off: nat)
    requires Slack(j) && AllClosed(x) && (kind == TObj || kind == TArr)
    ensures Goes(Filled(b, kind, at, n, x), j + r, off, Filled(b, kind, at, n, x), r, off + |j|)
    decreases |j|
  {
    hide *;
    var st := Filled(b, kind, at, n, x);
    if j == [] {
      NothingRead(st, r, off);
    } else {
      SlackCons(j, r);
      AfterSlack(b, kind, at, n, x, j[1..], r, off + 1);
      if j[0] == ',' {
        AfterCommaHeld(b, kind, at, n, x, j[1..] + r, off);
      } else {
        AfterWs(st, [j[0]], j[1..] + r, off);
      }
      Then(st, j + r, off, st, j[1..] + r, off + 1, st, r, off + |j|);
    }
  }

  lemma NothingRead(st: St, r: string, off: nat)
    ensures Goes(st, [] + r, off, st, r, off + 0)
  {
    assert [] + r == r;
    hide ReadOn;
  }

  lemma SlackCons(j: string, r: string)
    requires j != [] && Slack(j)
    ensures j + r == [j[0]] + (j[1..] + r) && Slack(j[1..]) && (j[0] == ',' || AllWs([j[0]]))
    ensures j[0] == ',' ==> [j[0]] == ","
  {
  }

  // After a member, beginning with a comma.
  lemma AfterLooseSlack(st: St, b: seq<Raw>, kind: Kind, at: nat, n: nat, x: seq<Raw>, j: string, r: string, off: nat)
    requires Loose(st, b, kind, at, n, x) && AllClosed(x) && (kind == TObj || kind == TArr)
    requires Slack(j) && j != [] && j[0] == ','
    ensures Goes(st, j + r, off, Filled(b, kind, at, n, x), r, off + |j|)
  {
    hide *;
    SlackCons(j, r);
    AfterCommaLoose(st, b, kind, at, n, x, j[1..] + r, off);
    AfterSlack(b, kind, at, n, x, j[1..], r, off + 1);
    Then(st, j + r, off, Filled(b, kind, at, n, x), j[1..] + r, off + 1, Filled(b, kind, at, n, x), r, off + |j|);
  }

  // ----- Two texts that differ in it --------------------------------------------------------------

  lemma GoesIs(st: St, s: string, off: nat, t: St, r: string, n: nat)
    requires Goes(st, s, off, t, r, n)
    ensures ReadOn(st, s, off) == ReadOn(t, r, n)
  {
    hide ReadOn;
  }

  // Two ways to read on come to results that are alike.
  predicate Agrees(t: string, x: St, s: string, off: nat, u: string, y: St, r: string, at: nat) {
    AlikeResults(t, ReadOn(x, s, off), u, ReadOn(y, r, at))
  }

  lemma AgreesThere(t: string, x: St, s: string, off: nat, x2: St, s2: string, off2: nat,
                    u: string, y: St, r: string, at: nat, y2: St, r2: string, at2: nat)
    requires Goes(x, s, off, x2, s2, off2) && Goes(y, r, at, y2, r2, at2) && Agrees(t, x2, s2, off2, u, y2, r2, at2)
    ensures Agrees(t, x, s, off, u, y, r, at)
  {
    hide ReadOn, AlikeResults;
  }

  lemma AgreesSame(t: string, x: St, off: nat, u: string, y: St, at: nat, s: string)
    requires AlikeStates(t, x, u, y) && Boxes(x.toks) && off <= |t| && at <= |u| && t[off..] == s == u[at..]
    ensures Agrees(t, x, s, off, u, y, s, at)
  {
    AfterAlike(t, x, off, u, y, at);
    hide ReadOn, AlikeResults, AlikeStates, Boxes;
  }

  lemma RestAt(t: string, off: nat, j: string, r: string)
    requires off <= |t| && t[off..] == j + r
    ensures off + |j| <= |t| && t[off + |j|..] == r
  {
    assert t[off..][|j|..] == r;
  }

  // Before a member, or the end: what stands in between does not matter.
  lemma FilledAgrees(b: seq<Raw>, at: nat, n: nat, x: seq<Raw>, t: string, o1: nat, j1: string, u: string, o2: nat,
      j2: string, r: string)
    requires AllClosed(x) && Boxes(b) && Slack(j1) && Slack(j2) && o1 <= |t| && o2 <= |u|
    requires Alike(t, Held(b, TObj, at, n, x), u, Held(b, TObj, at, n, x)) && t[o1..] == j1 + r && u[o2..] == j2 + r
    ensures Agrees(t, Filled(b, TObj, at, n, x), j1 + r, o1, u, Filled(b, TObj, at, n, x), j2 + r, o2)
  {
    var st := Filled(b, TObj, at, n, x);
    HeldBoxes(b, TObj, at, n, x);
    hide Goes, Agrees, Alike, Held, Slack, Boxes;
    RestAt(t, o1, j1, r);
    RestAt(u, o2, j2, r);
    AgreesSame(t, st, o1 + |j1|, u, st, o2 + |j2|, r);
    AfterSlack(b, TObj, at, n, x, j1, r, o1);
    AfterSlack(b, TObj, at, n, x, j2, r, o2);
    AgreesThere(t, st, j1 + r, o1, st, r, o1 + |j1|, u, st, j2 + r, o2, st, r, o2 + |j2|);
  }

  lemma HeldBoxes(b: seq<Raw>, kind: Kind, at: nat, n: nat, x: seq<Raw>)
    requires Boxes(b) && AllClosed(x) && (kind == TObj || kind == TArr)
    ensures Boxes(Held(b, kind, at, n, x))
  {
  }

  // After a member, with another one to come.
  lemma MoreAgrees(st: St, b: seq<Raw>, at: nat, n: nat, x: seq<Raw>, t: string, o1: nat, j1: string, u: string,
      o2: nat,
                   j2: string, r: string)
    requires Loose(st, b, TObj, at, n, x) && AllClosed(x) && Boxes(b) && o1 <= |t| && o2 <= |u|
    requires Slack(j1) && Slack(j2) && j1 != [] && j1[0] == ',' && j2 != [] && j2[0] == ','
    requires Alike(t, Held(b, TObj, at, n, x), u, Held(b, TObj, at, n, x)) && t[o1..] == j1 + r && u[o2..] == j2 + r
    ensures Agrees(t, st, j1 + r, o1, u, st, j2 + r, o2)
  {
    var f := Filled(b, TObj, at, n, x);
    HeldBoxes(b, TObj, at, n, x);
    hide Goes, Agrees, Alike, Held, Slack, Boxes, Loose;
    RestAt(t, o1, j1, r);
    RestAt(u, o2, j2, r);
    AgreesSame(t, f, o1 + |j1|, u, f, o2 + |j2|, r);
    AfterLooseSlack(st, b, TObj, at, n, x, j1, r, o1);
    AfterLooseSlack(st, b, TObj, at, n, x, j2, r, o2);
    AgreesThere(t, st, j1 + r, o1, f, r, o1 + |j1|, u, st, j2 + r, o2, f, r, o2 + |j2|);
  }

  // After a member, at the end of the object: commas and white space behind the last member or none.
  lemma ShutAlike(t: string, u: string, b: seq<Raw>, at: nat, n: nat, x: seq<Raw>, e1: nat, e2: nat)
    requires Alike(t, Held(b, TObj, at, n, x), u, Held(b, TObj, at, n, x)) && AllClosed(x) && Boxes(b)
    ensures AlikeStates(t, Shut(b, TObj, at, n, x, e1), u, Shut(b, TObj, at, n, x, e2))
            && Boxes(Shut(b, TObj, at, n, x, e1).toks)
  {
    hide RawText, LastOpen;
    var h := Held(b, TObj, at, n, x);
    var xs, ys := Shut(b, TObj, at, n, x, e1).toks, Shut(b, TObj, at, n, x, e2).toks;
    forall i | 0 <= i < |xs| ensures SameTok(t, xs[i], u, ys[i]) {
      assert SameTok(t, h[i], u, h[i]);
      if i != |b| { assert xs[i] == h[i] == ys[i]; }
    }
  }

  lemma LastAgrees(st: St, b: seq<Raw>, at: nat, n: nat, x: seq<Raw>, t: string, o1: nat, j1: string, u: string,
      o2: nat, r: string)
    requires Loose(st, b, TObj, at, n, x) && AllClosed(x) && Boxes(b) && o1 <= |t| && o2 <= |u|
    requires Slack(j1) && j1 != [] && j1[0] == ','
    requires Alike(t, Held(b, TObj, at, n, x), u, Held(b, TObj, at, n, x)) && t[o1..] == j1 + ("}" + r)
             && u[o2..] == "}" + r
    ensures Agrees(t, st, j1 + ("}" + r), o1, u, st, "}" + r, o2)
  {
    hide *;
    var f, e1, e2 := Filled(b, TObj, at, n, x), o1 + |j1| + 1, o2 + 1;
    RestAt(t, o1, j1, "}" + r);
    RestAt(t, o1 + |j1|, "}", r);
    RestAt(u, o2, "}", r);
    ShutAlike(t, u, b, at, n, x, e1, e2);
    AgreesSame(t, Shut(b, TObj, at, n, x, e1), e1, u, Shut(b, TObj, at, n, x, e2), e2, r);
    AfterLooseSlack(st, b, TObj, at, n, x, j1, "}" + r, o1);
    AfterShutHeld(b, TObj, at, n, x, r, o1 + |j1|);
    AfterShutLoose(st, b, TObj, at, n, x, r, o2);
    Then(st, j1 + ("}" + r), o1, f, "}" + r, o1 + |j1|, Shut(b, TObj, at, n, x, e1), r, e1);
    AgreesThere(t, st, j1 + ("}" + r), o1, Shut(b, TObj, at, n, x, e1), r, e1, u, st, "}" + r, o2,
      Shut(b, TObj, at, n, x, e2), r, e2);
  }
}
