/** Quotes in JSON texts: where a text is inside a string.  A text that parses ends outside, and what
    follows a place inside a string does not, read from outside. */
module JsonLex {
  import opened Wrappers
  import opened JsonText
  import opened CfgText

  // Outside strings, inside one, after its backslash, and after a backslash outside.
  datatype Lexed = Out | In | Esc | Bad

  function Step(q: Lexed, c: char): Lexed {
    match q
    case Out => if c == '"' then In else if c == '\\' then Bad else Out
    case In => if c == '"' then Out else if c == '\\' then Esc else In
    case Esc => In
    case Bad => Bad
  }

  function Lex(q: Lexed, s: string): Lexed
    decreases |s|
  {
    if s == [] then q else Lex(Step(q, s[0]), s[1..])
  }

  lemma {:induction false} LexAppend(q: Lexed, a: string, b: string)
    ensures Lex(q, a + b) == Lex(Lex(q, a), b)
    decreases |a|
  {
    if a == [] {
      assert a + b == b;
    } else {
      assert (a + b)[1..] == a[1..] + b;
      LexAppend(Step(q, a[0]), a[1..], b);
    }
  }

  lemma LexOne(q: Lexed, c: char)
    ensures Lex(q, [c]) == Step(q, c)
  {
    assert [c][1..] == [];
  }

  lemma {:induction false} LexBad(s: string)
    ensures Lex(Bad, s) == Bad
  {
    if s != [] {
      LexBad(s[1..]);
    }
  }

  // What is read from inside a string to outside is not, read from outside.
  lemma {:induction false} NotBoth(w: string)
    ensures !(Lex(In, w) == Out && Lex(Out, w) == Out)
  {
    if w != [] {
      NotBoth(w[1..]);
      LexBad(w[1..]);
    }
  }

  predicate NoQuotes(s: string) {
    forall i | 0 <= i < |s| :: s[i] != '"' && s[i] != '\\'
  }

  lemma {:induction false} LexNoQuotes(q: Lexed, s: string)
    requires NoQuotes(s) && (q == Out || q == In)
    ensures Lex(q, s) == q
    decreases |s|
  {
    if s != [] {
      LexNoQuotes(q, s[1..]);
    }
  }

  lemma LexWs(s: string)
    requires AllWs(s)
    ensures Lex(Out, s) == Out
  {
    LexNoQuotes(Out, s);
  }

  // ----- Strings ----------------------------------------------------------------------------------

  // One character of a string's content, and its parts.
  lemma LexChar(x: string, k: nat)
    requires k <= CharLen(x)
    ensures Lex(In, x[..k]) == if k == 1 && x[0] == '\\' then Esc else In
  {
    if k == 0 {
    } else if x[0] == '\\' {
      assert x[..k] == x[..1] + x[1..k];
      LexAppend(In, x[..1], x[1..k]);
      LexOne(In, x[0]);
      if k > 1 {
        LexEscaped(x, k);
      }
    } else {
      LexOne(In, x[0]);
    }
  }

  lemma LexEscaped(x: string, k: nat)
    requires 2 <= k <= CharLen(x) && x[0] == '\\'
    ensures Lex(Esc, x[1..k]) == In
  {
    assert x[1..k] == [x[1]] + x[2..k];
    LexAppend(Esc, [x[1]], x[2..k]);
    LexOne(Esc, x[1]);
    assert NoQuotes(x[2..k]) by {
      assert forall i | 0 <= i < k - 2 :: x[2..k][i] == x[2 + i] && IsHex(x[2 + i]);
    }
    LexNoQuotes(In, x[2..k]);
  }

  // Inside a string's content: after an escaping backslash, or not.
  lemma {:induction false} LexContent(x: string, k: nat)
    requires StrOk(x) && k <= |x|
    ensures Lex(In, x[..k]) == In || (Lex(In, x[..k]) == Esc && k < |x| && (x[k] == '"' ==> StrOk(x[k + 1..])))
    decreases |x|
  {
    if x != [] {
      var n := CharLen(x);
      if k < n {
        LexChar(x, k);
        hide StrOk;
        assert n == 2 ==> x[1 + 1..] == x[n..];
      } else {
        LexChar(x, n);
        LexContent(x[n..], k - n);
        LexAppend(In, x[..n], x[n..][..k - n]);
        assert x[..n] + x[n..][..k - n] == x[..k];
        assert x[n..][k - n..] == x[k..];
        assert k < |x| ==> x[n..][k - n + 1..] == x[k + 1..] && x[n..][k - n] == x[k];
      }
    }
  }

  lemma LexQuoted(x: string)
    requires StrOk(x)
    ensures Lex(Out, "\"" + x + "\"") == Out
  {
    LexContent(x, |x|);
    assert x[..|x|] == x;
    LexAppend(Out, "\"" + x, "\"");
    LexAppend(Out, "\"", x);
    LexOne(Out, '"');
    LexOne(In, '"');
  }

  // ----- Values -----------------------------------------------------------------------------------

  // Texts that are read from outside to outside, joined.
  lemma LexJoin(a: string, b: string)
    requires Lex(Out, a) == Out
    ensures Lex(Out, a + b) == Lex(Out, b)
  {
    LexAppend(Out, a, b);
  }

  lemma LexMark(c: char)
    requires c != '"' && c != '\\'
    ensures Lex(Out, [c]) == Out
  {
    LexOne(Out, c);
  }

  lemma {:induction false} LexValue(v: Value)
    requires Wf(v)
    ensures Lex(Out, Print(v)) == Out
    decreases v, 0
  {
    hide Lex, PrintItems, PrintMembers, WfItem, WfMember, StrOk, AllWs, IsNumber, PrintItem, PrintMember;
    match v
    case Prim(t) =>
      LexNoQuotes(Out, t);
    case Str(t) =>
      LexQuoted(t);
    case Arr(items, ws) =>
      if items == [] { LexWs(ws); } else { LexItems(items); }
      var inner := if items == [] then ws else PrintItems(items);
      LexBetween('[', inner, ']');
    case Obj(members, ws) =>
      if members == [] { LexWs(ws); } else { LexMembers(members); }
      var inner := if members == [] then ws else PrintMembers(members);
      LexBetween('{', inner, '}');
  }

  lemma LexBetween(a: char, s: string, b: char)
    requires a != '"' && a != '\\' && b != '"' && b != '\\' && Lex(Out, s) == Out
    ensures Lex(Out, [a] + s + [b]) == Out
  {
    LexMark(a);
    LexMark(b);
    LexJoin([a], s);
    LexJoin([a] + s, [b]);
    hide Lex;
  }

  lemma {:induction false} LexItems(es: seq<Item>)
    requires es != [] && forall e | e in es :: WfItem(e)
    ensures Lex(Out, PrintItems(es)) == Out
    decreases es, 1
  {
    hide Lex, Print, Wf, AllWs, PrintItem;
    LexItem(es[0]);
    if |es| > 1 {
      LexItems(es[1..]);
      LexComma(PrintItem(es[0]), PrintItems(es[1..]));
    }
  }

  lemma LexComma(a: string, b: string)
    requires Lex(Out, a) == Out && Lex(Out, b) == Out
    ensures Lex(Out, a + "," + b) == Out && Lex(Out, a + ",") == Out
  {
    LexMark(',');
    LexJoin(a, ",");
    LexJoin(a + ",", b);
    hide Lex;
  }

  lemma {:induction false} LexItem(e: Item)
    requires WfItem(e)
    ensures Lex(Out, PrintItem(e)) == Out
    decreases e, 2
  {
    hide Lex, Print, Wf, AllWs;
    LexWs(e.pre);
    LexValue(e.val);
    LexWs(e.post);
    LexJoin(e.pre, Print(e.val));
    LexJoin(e.pre + Print(e.val), e.post);
  }

  lemma {:induction false} LexMembers(ms: seq<Member>)
    requires ms != [] && forall m | m in ms :: WfMember(m)
    ensures Lex(Out, PrintMembers(ms)) == Out
    decreases ms, 1
  {
    hide Lex, Print, Wf, AllWs, PrintMember;
    LexMember(ms[0]);
    if |ms| > 1 {
      LexMembers(ms[1..]);
      LexComma(PrintMember(ms[0]), PrintMembers(ms[1..]));
    }
  }

  lemma LexHead(pre: string, key: string, colon: string, mid: string)
    requires AllWs(pre) && StrOk(key) && AllWs(colon) && AllWs(mid)
    ensures Lex(Out, pre + ("\"" + key + "\"" + colon + ":" + mid)) == Out
  {
    var q := "\"" + key + "\"";
    LexWs(pre);
    LexQuoted(key);
    LexWs(colon);
    LexMark(':');
    LexWs(mid);
    hide *;
    LexJoin(q, colon);
    LexJoin(q + colon, ":");
    LexJoin(q + colon + ":", mid);
    LexJoin(pre, q + colon + ":" + mid);
  }

  lemma {:induction false} LexMember(m: Member)
    requires WfMember(m)
    ensures Lex(Out, PrintMember(m)) == Out
    decreases m, 2
  {
    hide Lex, Print, Wf, AllWs, StrOk;
    var h, v := "\"" + m.key + "\"" + m.colon + ":" + m.mid, Print(m.val);
    LexHead(m.pre, m.key, m.colon, m.mid);
    LexValue(m.val);
    LexWs(m.post);
    LexJoin(m.pre + h, v);
    LexJoin(m.pre + h + v, m.post);
    assert m.pre + h + v + m.post == PrintMember(m) by { assert m.pre + h + v + m.post == m.pre + (h + v + m.post); }
  }

  // A text that parses is read from outside to outside.
  lemma ParsedIsOut(s: string)
    requires Parse(s).Some?
    ensures Lex(Out, s) == Out
  {
    var d := Parse(s).value;
    ParseIffPrint(s, d);
    hide Lex, Print, Wf, Parse;
    LexWs(d.pre);
    LexValue(d.root);
    LexWs(d.post);
    LexJoin(d.pre, Print(d.root));
    LexJoin(d.pre + Print(d.root), d.post);
  }
}
