/** What jsmn_parse makes of a text in which _cfg_cut of cfg/cfg.cpp has left part of a member: its next
    token is not the next key. */
module CfgLeft {
  import opened Wrappers
  import opened JsonText
  import opened JsonLex
  import opened CfgWalk
  import opened Jsmn
  import opened JsmnTree
  import opened JsmnRead

  // Characters that start no token.
  predicate Silent(c: char) {
    IsWs(c) || c == ',' || c == ':' || c == '}' || c == ']'
  }

  predicate AllSilent(s: string) {
    forall i | 0 <= i < |s| :: Silent(s[i])
  }

  // Without colons.
  predicate Mute(s: string) {
    forall i | 0 <= i < |s| :: Silent(s[i]) && s[i] != ':'
  }

  // The state after a stretch of them: no more tokens.
  lemma TookQuiet(st: St, s: string, off: nat)
    requires s != [] && Silent(s[0]) && st.super < |st.toks| && Took(st, s, off).Some?
    ensures var (t, n) := Took(st, s, off).value; n == 1 && |t.toks| == |st.toks| && t.super < |t.toks|
  {
    hide BareLen, TextLen, IsDigit;
  }

  lemma {:induction false} SkipQuiet(st: St, q: string, r: string, off: nat) returns (u: St)
    requires AllSilent(q) && st.super < |st.toks| && ReadOn(st, q + r, off).Some?
    ensures |u.toks| == |st.toks| && u.super < |u.toks| && ReadOn(st, q + r, off) == ReadOn(u, r, off + |q|)
    decreases |q|
  {
    hide Took;
    if q == [] {
      assert q + r == r;
      u := st;
    } else {
      assert (q + r)[0] == q[0] && (q + r)[1..] == q[1..] + r;
      TookQuiet(st, q + r, off);
      u := SkipQuiet(Took(st, q + r, off).value.0, q[1..], r, off + 1);
    }
  }

  // ----- A token that is no string ----------------------------------------------------------------

  predicate NoKey(t: string, ts: seq<Raw>, n: nat, key: Option<string>) {
    n < |ts| && !(ts[n].kind == TStr && ts[n].size == 1 && key == Some(RawText(t, ts[n])))
  }

  lemma TookOther(st: St, s: string, off: nat)
    requires s != [] && !Silent(s[0]) && s[0] != '"' && Took(st, s, off).Some?
    ensures var t := Took(st, s, off).value.0; |t.toks| == |st.toks| + 1 && t.toks[|st.toks|].kind != TStr
  {
    hide BareLen, TextLen, IsDigit;
  }

  lemma OtherIsNoKey(st: St, q: string, r: string, off: nat, t: string, key: Option<string>)
    requires AllSilent(q) && st.super < |st.toks| && r != [] && !Silent(r[0]) && r[0] != '"'
    ensures ReadOn(st, q + r, off).Some? ==> NoKey(t, ReadOn(st, q + r, off).value, |st.toks|, key)
  {
    if ReadOn(st, q + r, off).Some? {
      var u := SkipQuiet(st, q, r, off);
      TookOther(u, r, off + |q|);
      var (v, n) := Took(u, r, off + |q|).value;
      AfterGrows(v, r[n..], off + |q| + n);
      hide Took, Silent, RawText;
    }
  }

  // ----- A string ---------------------------------------------------------------------------------

  // Read to the next quote, or the end, the last token stays as it is.
  lemma TookMute(st: St, s: string, off: nat)
    requires s != [] && Silent(s[0]) && s[0] != ':' && Took(st, s, off).Some?
    requires st.toks != [] && st.super < |st.toks| - 1 && !st.toks[|st.toks| - 1].IsOpen()
    ensures var (t, n) := Took(st, s, off).value;
            n == 1 && |t.toks| == |st.toks| && t.super < |t.toks| - 1 && t.toks[|t.toks| - 1] == st.toks[|st.toks| - 1]
  {
    hide BareLen, TextLen, IsDigit;
  }

  lemma TookQuote(st: St, z: string, off: nat)
    requires z != [] && z[0] == '"' && Took(st, z, off).Some?
    requires st.toks != [] && st.super < |st.toks| - 1 && !st.toks[|st.toks| - 1].IsOpen()
    ensures var t := Took(st, z, off).value.0;
            Frozen(t, |st.toks| - 1)
            && t.toks[|st.toks| - 1] == st.toks[|st.toks| - 1]
  {
    hide BareLen, TextLen, IsDigit;
  }

  lemma QuoteKeeps(st: St, z: string, off: nat)
    requires (z == [] || z[0] == '"') && ReadOn(st, z, off).Some?
    requires st.toks != [] && st.super < |st.toks| - 1 && !st.toks[|st.toks| - 1].IsOpen()
    ensures var r, i := ReadOn(st, z, off).value, |st.toks| - 1; i < |r| && r[i] == st.toks[i]
  {
    hide Took;
    if z != [] {
      var (t, n) := Took(st, z, off).value;
      TookQuote(st, z, off);
      AfterFrozen(t, z[n..], off + n, |st.toks| - 1);
    }
  }

  lemma {:induction false} MuteKeeps(st: St, g: string, z: string, off: nat)
    requires Mute(g) && (z == [] || z[0] == '"') && ReadOn(st, g + z, off).Some?
    requires st.toks != [] && st.super < |st.toks| - 1 && !st.toks[|st.toks| - 1].IsOpen()
    ensures var r, i := ReadOn(st, g + z, off).value, |st.toks| - 1; i < |r| && r[i] == st.toks[i]
    decreases |g|
  {
    hide Took;
    if g == [] {
      assert g + z == z;
      QuoteKeeps(st, z, off);
    } else {
      assert (g + z)[0] == g[0] && (g + z)[1..] == g[1..] + z;
      TookMute(st, g + z, off);
      MuteKeeps(Took(st, g + z, off).value.0, g[1..], z, off + 1);
    }
  }

  lemma LeafFacts(u: St, a: nat, e: nat)
    requires u.super < |u.toks|
    ensures var v := Leaf(u, TStr, a, e);
            |v.toks| == |u.toks| + 1 && v.toks[|u.toks|] == Raw(TStr, a, e, 0) && v.super < |u.toks|
  {
  }

  // A string behind quiet characters: its token, and what is read after it.
  lemma StringTaken(st: St, q: string, x: string, y: string, off: nat) returns (v: St)
    requires AllSilent(q) && st.super < |st.toks| && TextLen(x + "\"" + y) == Some(|x|)
    requires ReadOn(st, q + ("\"" + x + "\"" + y), off).Some?
    ensures var n := off + |q|;
            && |v.toks| == |st.toks| + 1 && v.toks[|st.toks|] == Raw(TStr, n + 1, n + 1 + |x|, 0) && v.super < |st.toks|
            && ReadOn(st, q + ("\"" + x + "\"" + y), off) == ReadOn(v, y, n + |x| + 2)
  {
    hide *;
    var s, n := x + "\"" + y, off + |q|;
    SplitQuoted(x, y);
    var u := SkipQuiet(st, q, ['"'] + s, off);
    v := Leaf(u, TStr, n + 1, n + 1 + |x|);
    LeafFacts(u, n + 1, n + 1 + |x|);
    TookString(u, s, n, |x|);
    AfterTook(u, ['"'] + s, n, v, |x| + 2);
    GoesIs(u, ['"'] + s, n, v, y, n + |x| + 2);
  }

  lemma GoesIs(st: St, s: string, off: nat, t: St, r: string, n: nat)
    requires Goes(st, s, off, t, r, n)
    ensures ReadOn(st, s, off) == ReadOn(t, r, n)
  {
    hide ReadOn;
  }

  // A string that is not followed by a colon before the next quote.
  lemma StringIsNoKey(st: St, q: string, x: string, g: string, z: string, off: nat, t: string, key: Option<string>)
    requires AllSilent(q) && st.super < |st.toks| && Mute(g) && (z == [] || z[0] == '"')
    requires TextLen(x + "\"" + (g + z)) == Some(|x|)
    ensures var r := q + ("\"" + x + "\"" + (g + z));
            ReadOn(st, r, off).Some? ==> NoKey(t, ReadOn(st, r, off).value, |st.toks|, key)
  {
    var r := q + ("\"" + x + "\"" + (g + z));
    hide RawText, ReadOn, TextLen, Mute, Silent;
    if ReadOn(st, r, off).Some? {
      var v := StringTaken(st, q, x, g + z, off);
      MuteKeeps(v, g, z, off + |q| + |x| + 2);
    }
  }

  // ----- What the cut can leave -------------------------------------------------------------------

  lemma {:induction false} NoQuoteNoText(s: string)
    requires forall i | 0 <= i < |s| :: s[i] != '"'
    ensures TextLen(s) == None
    decreases |s|
  {
    if s != [] {
      NoQuoteNoText(s[1..]);
      if |s| >= 2 { NoQuoteNoText(s[2..]); }
      if |s| >= 6 { NoQuoteNoText(s[6..]); }
    }
  }

  lemma {:induction false} MuteText(g: string, z: string)
    requires Mute(g) && z != [] && z[0] == '"'
    ensures TextLen(g + z) == Some(|g|)
  {
    if g == [] {
      assert g + z == z;
    } else {
      assert (g + z)[0] == g[0] && (g + z)[1..] == g[1..] + z;
      assert g[0] != '\\' && g[0] != '"';
      MuteText(g[1..], z);
    }
  }

  // What follows the member: nothing that starts a token before the next key, if there is one.
  predicate Follow(c: string, g: string, z: string, key: Option<string>) {
    && c == g + z && Mute(g)
    && match key
       case None => z == []
       case Some(k) => |z| >= |k| + 2 && z[0] == '"' && z[1..1 + |k|] == k && z[|k| + 1] == '"'
  }

  // From the string's closing quote on: the next string is what follows the member, up to the next key.
  lemma QuoteIsNoKey(st: St, q: string, post: string, c: string, g: string, z: string, off: nat, t: string,
      key: Option<string>)
    requires AllSilent(q) && st.super < |st.toks| && AllWs(post) && Follow(c, g, z, key)
    requires off <= |t| && t[off..] == q + ("\"" + (post + c))
    ensures var r := q + ("\"" + (post + c));
            ReadOn(st, r, off).Some? ==> NoKey(t, ReadOn(st, r, off).value, |st.toks|, key)
  {
    var r, h := q + ("\"" + (post + c)), post + g;
    assert Mute(h) && post + c == h + z by { assert post + (g + z) == post + g + z; }
    if ReadOn(st, r, off).Some? {
      if key == None {
        assert h + z == h;
        QuoteNotClosed(st, q, h, off);
      } else {
        QuoteToKey(st, q, h, z, key.value, off, t);
      }
    }
    hide Silent, ReadOn, RawText, TextLen;
  }

  lemma NotClosed(u: St, h: string, off: nat)
    requires Mute(h)
    ensures ReadOn(u, "\"" + h, off) == None
  {
    assert forall i | 0 <= i < |h| :: h[i] != '"';
    NoQuoteNoText(h);
    assert ("\"" + h)[1..] == h;
    hide TextLen, Silent;
  }

  lemma QuoteNotClosed(st: St, q: string, h: string, off: nat)
    requires AllSilent(q) && st.super < |st.toks| && Mute(h)
    ensures ReadOn(st, q + ("\"" + h), off) == None
  {
    hide ReadOn, Silent, Mute;
    if ReadOn(st, q + ("\"" + h), off).Some? {
      var u := SkipQuiet(st, q, "\"" + h, off);
      NotClosed(u, h, off + |q|);
    }
  }

  lemma QuotedParts(q: string, h: string, z: string, k: string)
    requires |z| >= |k| + 2 && z[0] == '"' && z[1..1 + |k|] == k && z[|k| + 1] == '"'
    ensures h + z == h + "\"" + z[1..] && q + ("\"" + (h + z)) == q + ("\"" + h + "\"" + z[1..])
    ensures |z[1..]| >= |k| + 1 && z[1..][..|k|] == k && z[1..][|k|] == '"'
    ensures (q + ("\"" + (h + z)))[|q| + 1..|q| + 1 + |h|] == h
  {
  }

  lemma QuoteToKey(st: St, q: string, h: string, z: string, k: string, off: nat, t: string)
    requires AllSilent(q) && st.super < |st.toks| && Mute(h) && ReadOn(st, q + ("\"" + (h + z)), off).Some?
    requires |z| >= |k| + 2 && z[0] == '"' && z[1..1 + |k|] == k && z[|k| + 1] == '"'
    requires off <= |t| && t[off..] == q + ("\"" + (h + z))
    ensures NoKey(t, ReadOn(st, q + ("\"" + (h + z)), off).value, |st.toks|, Some(k))
  {
    hide *;
    var y, n := z[1..], off + |q| + 1;
    MuteText(h, z);
    QuotedParts(q, h, z, k);
    SliceOfRest(t, off, |q| + 1, |h|);
    var v := StringTaken(st, q, h, y, off);
    KeyText(v, h, y, k, off + |q| + |h| + 2, t, n);
  }

  lemma SliceOfRest(t: string, off: nat, a: nat, n: nat)
    requires off <= |t| && a + n <= |t| - off
    ensures t[off + a..off + a + n] == t[off..][a..a + n]
  {
  }

  // The string h, if it is the next key, is followed by itself.
  lemma KeyText(v: St, h: string, y: string, k: string, off: nat, t: string, n: nat)
    requires v.toks != [] && v.toks[|v.toks| - 1] == Raw(TStr, n, n + |h|, 0) && v.super < |v.toks| - 1
    requires Mute(h) && |y| >= |k| + 1 && y[..|k|] == k && y[|k|] == '"' && ReadOn(v, y, off).Some?
    requires n + |h| <= |t| && t[n..n + |h|] == h
    ensures NoKey(t, ReadOn(v, y, off).value, |v.toks| - 1, Some(k))
  {
    AfterGrows(v, y, off);
    hide ReadOn, Silent;
    if k == h {
      assert y == h + y[|h|..];
      MuteKeeps(v, h, y[|h|..], off);
    } else {
      var x := ReadOn(v, y, off).value[|v.toks| - 1];
      assert x.start == n && x.end == n + |h|;
    }
  }
}
