/** JSON texts (RFC 8259) as trees that keep their white space, with a printer and a parser that are
    inverse to each other.  This is what it means below for a text to parse to something. */
module JsonText {
  import opened Wrappers

  datatype Value =
    | Prim(text: string)
    | Str(text: string)                             // the characters between the quotes
    | Arr(items: seq<Item>, ws: string)             // ws is what an empty array holds
    | Obj(members: seq<Member>, ws: string)
  datatype Item = Item(pre: string, val: Value, post: string)
  datatype Member = Member(pre: string, key: string, colon: string, mid: string, val: Value, post: string)

  // ----- Characters (sections 2, 6 and 7) ---------------------------------------------------------

  predicate IsWs(c: char) {
    c == ' ' || c == '\t' || c == '\n' || c == '\r'
  }

  predicate AllWs(s: string) {
    forall i | 0 <= i < |s| :: IsWs(s[i])
  }

  predicate IsDigit(c: char) {
    '0' <= c <= '9'
  }

  predicate IsHex(c: char) {
    IsDigit(c) || 'a' <= c <= 'f' || 'A' <= c <= 'F'
  }

  predicate PrimChar(c: char) {
    IsDigit(c) || 'a' <= c <= 'z' || 'A' <= c <= 'Z' || c == '-' || c == '+' || c == '.'
  }

  function Digits(s: string): nat {
    if s != [] && IsDigit(s[0]) then 1 + Digits(s[1..]) else 0
  }

  predicate IsExponent(s: string) {
    s == [] || ((s[0] == 'e' || s[0] == 'E') &&
      var t := if |s| > 1 && (s[1] == '+' || s[1] == '-') then s[2..] else s[1..];
      t != [] && Digits(t) == |t|)
  }

  predicate IsNumber(s: string) {
    var t := if s != [] && s[0] == '-' then s[1..] else s;
    var n := Digits(t);
    && (n == 1 || (n > 1 && t[0] != '0'))
    && n <= |t|
    && var u := t[n..];
       if u != [] && u[0] == '.'
       then var k := Digits(u[1..]); k > 0 && k <= |u[1..]| && IsExponent(u[1..][k..])
       else IsExponent(u)
  }

  predicate PrimOk(s: string) {
    s != [] && (forall i | 0 <= i < |s| :: PrimChar(s[i])) &&
    (s == "true" || s == "false" || s == "null" || IsNumber(s))
  }

  // How many characters the (escaped) character at the start of a string's content takes, 0 if
  // there is none that is allowed.
  function CharLen(s: string): (n: nat)
    ensures n <= |s|
  {
    if s == [] || s[0] == '"' || s[0] < ' ' then 0
    else if s[0] != '\\' then 1
    else if |s| >= 2 && s[1] in "\"\\/bfnrt" then 2
    else if |s| >= 6 && s[1] == 'u' && IsHex(s[2]) && IsHex(s[3]) && IsHex(s[4]) && IsHex(s[5]) then 6
    else 0
  }

  predicate StrOk(s: string) {
    s == [] || (CharLen(s) > 0 && StrOk(s[CharLen(s)..]))
  }

  // ----- Printing ---------------------------------------------------------------------------------

  function Print(v: Value): (s: string)
    ensures s != [] || v.Prim?
    decreases v
  {
    match v
    case Prim(t) => t
    case Str(t) => "\"" + t + "\""
    case Arr(items, ws) => "[" + (if items == [] then ws else PrintItems(items)) + "]"
    case Obj(members, ws) => "{" + (if members == [] then ws else PrintMembers(members)) + "}"
  }

  function PrintItem(e: Item): string
    decreases e
  {
    e.pre + Print(e.val) + e.post
  }

  function PrintItems(es: seq<Item>): string
    decreases es
  {
    if es == [] then ""
    else if |es| == 1 then PrintItem(es[0])
    else PrintItem(es[0]) + "," + PrintItems(es[1..])
  }

  function PrintMember(m: Member): string
    decreases m, 1
  {
    m.pre + MemberBody(m)
  }

  // A member from its opening quote on.
  function MemberBody(m: Member): (s: string)
    ensures s != [] && s[0] == '"'
    decreases m, 0
  {
    "\"" + m.key + "\"" + m.colon + ":" + m.mid + Print(m.val) + m.post
  }

  function PrintMembers(ms: seq<Member>): string
    decreases ms
  {
    if ms == [] then ""
    else if |ms| == 1 then PrintMember(ms[0])
    else PrintMember(ms[0]) + "," + PrintMembers(ms[1..])
  }

  // ----- Well-formed trees ------------------------------------------------------------------------

  predicate Wf(v: Value)
    decreases v
  {
    match v
    case Prim(t) => PrimOk(t)
    case Str(t) => StrOk(t)
    case Arr(items, ws) =>
      AllWs(ws) && (items != [] ==> ws == "") && forall e | e in items :: WfItem(e)
    case Obj(members, ws) =>
      AllWs(ws) && (members != [] ==> ws == "") && forall m | m in members :: WfMember(m)
  }

  predicate WfItem(e: Item)
    decreases e
  {
    AllWs(e.pre) && Wf(e.val) && AllWs(e.post)
  }

  predicate WfMember(m: Member)
    decreases m
  {
    AllWs(m.pre) && StrOk(m.key) && AllWs(m.colon) && AllWs(m.mid) && Wf(m.val) && AllWs(m.post)
  }

  // ----- Parsing ----------------------------------------------------------------------------------

  function ScanWs(s: string): (r: (string, string))
    ensures s == r.0 + r.1 && AllWs(r.0) && (r.1 == [] || !IsWs(r.1[0]))
  {
    if s == [] || !IsWs(s[0]) then ("", s)
    else var (w, t) := ScanWs(s[1..]); (s[..1] + w, t)
  }

  function ScanPrim(s: string): (r: (string, string))
    ensures s == r.0 + r.1 && (forall i | 0 <= i < |r.0| :: PrimChar(r.0[i])) && (r.1 == [] || !PrimChar(r.1[0]))
  {
    if s == [] || !PrimChar(s[0]) then ("", s)
    else var (w, t) := ScanPrim(s[1..]); (s[..1] + w, t)
  }

  // From after an opening quote: the content, and what follows the closing quote.
  function ScanStr(s: string): (r: Option<(string, string)>)
    ensures r.Some? ==> |r.value.1| < |s|
  {
    if s != [] && s[0] == '"' then Some(("", s[1..]))
    else
      var n := CharLen(s);
      if n == 0 then None
      else match ScanStr(s[n..])
        case None => None
        case Some((t, r)) => Some((s[..n] + t, r))
  }

  // A value at the start of s, and the text after it.
  function ParseValue(s: string): (r: Option<(Value, string)>)
    ensures r.Some? ==> |r.value.1| < |s|
    decreases |s|, 0
  {
    if s == [] then None
    else if s[0] == '"' then
      match ScanStr(s[1..])
      case None => None
      case Some((t, rest)) => Some((Str(t), rest))
    else if s[0] == '[' then
      var (w, t) := ScanWs(s[1..]);
      if t != [] && t[0] == ']' then Some((Arr([], w), t[1..]))
      else match ParseItems(s[1..])
        case None => None
        case Some((es, rest)) => Some((Arr(es, ""), rest))
    else if s[0] == '{' then
      var (w, t) := ScanWs(s[1..]);
      if t != [] && t[0] == '}' then Some((Obj([], w), t[1..]))
      else match ParseMembers(s[1..])
        case None => None
        case Some((ms, rest)) => Some((Obj(ms, ""), rest))
    else
      var (t, rest) := ScanPrim(s);
      if PrimOk(t) then Some((Prim(t), rest)) else None
  }

  // One element and the text after its trailing white space.
  function ParseItem(s: string): (r: Option<(Item, string)>)
    ensures r.Some? ==> |r.value.1| < |s|
    decreases |s|, 1
  {
    var (pre, a) := ScanWs(s);
    match ParseValue(a)
    case None => None
    case Some((v, b)) => var (post, c) := ScanWs(b); Some((Item(pre, v, post), c))
  }

  // The elements of a non-empty array up to and including the closing bracket.
  function ParseItems(s: string): (r: Option<(seq<Item>, string)>)
    ensures r.Some? ==> |r.value.1| < |s| && r.value.0 != []
    decreases |s|, 2
  {
    match ParseItem(s)
    case None => None
    case Some((e, t)) =>
      if t != [] && t[0] == ']' then Some(([e], t[1..]))
      else if t != [] && t[0] == ',' then
        match ParseItems(t[1..])
        case None => None
        case Some((es, rest)) => Some(([e] + es, rest))
      else None
  }

  function ParseMember(s: string): (r: Option<(Member, string)>)
    ensures r.Some? ==> |r.value.1| < |s|
    decreases |s|, 1
  {
    var (pre, a) := ScanWs(s);
    if a == [] || a[0] != '"' then None
    else match ScanStr(a[1..])
      case None => None
      case Some((key, b)) =>
        var (colon, c) := ScanWs(b);
        if c == [] || c[0] != ':' then None
        else
          var (mid, d) := ScanWs(c[1..]);
          match ParseValue(d)
          case None => None
          case Some((v, e)) => var (post, f) := ScanWs(e); Some((Member(pre, key, colon, mid, v, post), f))
  }

  function ParseMembers(s: string): (r: Option<(seq<Member>, string)>)
    ensures r.Some? ==> |r.value.1| < |s| && r.value.0 != []
    decreases |s|, 2
  {
    match ParseMember(s)
    case None => None
    case Some((m, t)) =>
      if t != [] && t[0] == '}' then Some(([m], t[1..]))
      else if t != [] && t[0] == ',' then
        match ParseMembers(t[1..])
        case None => None
        case Some((ms, rest)) => Some(([m] + ms, rest))
      else None
  }

  // A whole text: one value with white space around it.
  datatype Doc = Doc(pre: string, root: Value, post: string)

  function PrintDoc(d: Doc): string {
    d.pre + Print(d.root) + d.post
  }

  predicate WfDoc(d: Doc) {
    AllWs(d.pre) && Wf(d.root) && AllWs(d.post)
  }

  function Parse(s: string): Option<Doc> {
    match ParseItem(s)
    case None => None
    case Some((e, rest)) => if rest == [] then Some(Doc(e.pre, e.val, e.post)) else None
  }

  // ----- What is parsed is what is printed --------------------------------------------------------

  lemma CharLenOfPrefix(c: string, t: string)
    requires c != [] && CharLen(c) == |c|
    ensures CharLen(c + t) == |c|
  {
  }

  lemma {:induction false} ScannedStr(s: string)
    requires ScanStr(s).Some?
    ensures var (t, r) := ScanStr(s).value; StrOk(t) && s == t + "\"" + r
  {
    if s[0] == '"' {
      assert s == "" + "\"" + s[1..];
    } else {
      var n := CharLen(s);
      ScannedStr(s[n..]);
      var (t, r) := ScanStr(s[n..]).value;
      CharLenOfHead(s);
      CharLenOfPrefix(s[..n], t);
      assert s == s[..n] + s[n..];
      assert (s[..n] + t)[n..] == t;
    }
  }

  lemma CharLenOfHead(s: string)
    ensures CharLen(s[..CharLen(s)]) == CharLen(s)
  {
  }

  lemma {:induction false} ParsedValue(s: string)
    requires ParseValue(s).Some?
    ensures var (v, rest) := ParseValue(s).value; Wf(v) && s == Print(v) + rest
    decreases |s|, 0
  {
    hide PrintItems, PrintMembers, ParseItems, ParseMembers, WfItem, WfMember, ScanStr, ScanWs, ScanPrim, PrimOk, StrOk;
    var (v, rest) := ParseValue(s).value;
    assert s == s[..1] + s[1..];
    match v
    case Prim(t) =>
    case Str(t) =>
      ScannedStr(s[1..]);
      assert s == ("\"" + t + "\"") + rest;
    case Arr(items, ws) =>
      if items != [] {
        ParsedItems(s[1..]);
        assert s == ("[" + PrintItems(items) + "]") + rest;
      } else {
        assert ScanWs(s[1..]).1 == "]" + rest;
        assert s == ("[" + ws + "]") + rest;
      }
    case Obj(members, ws) =>
      if members != [] {
        ParsedMembers(s[1..]);
        assert s == ("{" + PrintMembers(members) + "}") + rest;
      } else {
        assert ScanWs(s[1..]).1 == "}" + rest;
        assert s == ("{" + ws + "}") + rest;
      }
  }

  lemma {:induction false} ParsedItem(s: string)
    requires ParseItem(s).Some?
    ensures var (e, rest) := ParseItem(s).value; WfItem(e) && s == PrintItem(e) + rest
    decreases |s|, 1
  {
    ParsedValue(ScanWs(s).1);
  }

  lemma PrintItemsCons(e: Item, es: seq<Item>)
    ensures PrintItems([e]) == PrintItem(e)
    ensures es != [] ==> PrintItems([e] + es) == PrintItem(e) + "," + PrintItems(es)
  {
    assert ([e] + es)[1..] == es;
  }

  lemma PrintMembersCons(m: Member, ms: seq<Member>)
    ensures PrintMembers([m]) == PrintMember(m)
    ensures ms != [] ==> PrintMembers([m] + ms) == PrintMember(m) + "," + PrintMembers(ms)
  {
    assert ([m] + ms)[1..] == ms;
  }

  lemma Regroup(a: string, b: string, close: char, rest: string)
    ensures a + ("," + (b + [close] + rest)) == a + "," + b + [close] + rest
    ensures a + ([close] + rest) == a + [close] + rest
  {
  }

  lemma {:induction false} ParsedItems(s: string)
    requires ParseItems(s).Some?
    ensures var (es, rest) := ParseItems(s).value;
            es != [] && (forall e | e in es :: WfItem(e)) && s == PrintItems(es) + "]" + rest
    decreases |s|, 2
  {
    hide ParseItem, PrintItem, PrintItems, WfItem;
    ParsedItem(s);
    var (e, t) := ParseItem(s).value;
    assert t == t[..1] + t[1..];
    if t[0] == ']' {
      PrintItemsCons(e, []);
      Regroup(PrintItem(e), "", ']', t[1..]);
    } else {
      ParsedItems(t[1..]);
      var (es, rest) := ParseItems(t[1..]).value;
      PrintItemsCons(e, es);
      Regroup(PrintItem(e), PrintItems(es), ']', rest);
    }
  }

  lemma RegroupMember(pre: string, key: string, colon: string, mid: string, v: string, post: string, rest: string)
    ensures pre + ("\"" + (key + "\"" + (colon + (":" + (mid + (v + (post + rest)))))))
         == (pre + ("\"" + key + "\"" + colon + ":" + mid + v + post)) + rest
  {
  }

  lemma {:induction false} ParsedMember(s: string)
    requires ParseMember(s).Some?
    ensures var (m, rest) := ParseMember(s).value; WfMember(m) && s == PrintMember(m) + rest
    decreases |s|, 1
  {
    hide Print, Wf, ParseValue, ScanWs, ScanStr, StrOk, AllWs;
    var (pre, a) := ScanWs(s);
    ScannedStr(a[1..]);
    var (key, b) := ScanStr(a[1..]).value;
    var (colon, c) := ScanWs(b);
    var (mid, d) := ScanWs(c[1..]);
    ParsedValue(d);
    var (v, e) := ParseValue(d).value;
    var (post, rest) := ScanWs(e);
    assert a == "\"" + a[1..] && c == ":" + c[1..];
    RegroupMember(pre, key, colon, mid, Print(v), post, rest);
  }

  lemma {:induction false} ParsedMembers(s: string)
    requires ParseMembers(s).Some?
    ensures var (ms, rest) := ParseMembers(s).value;
            ms != [] && (forall m | m in ms :: WfMember(m)) && s == PrintMembers(ms) + "}" + rest
    decreases |s|, 2
  {
    hide ParseMember, PrintMember, PrintMembers, WfMember;
    ParsedMember(s);
    var (m, t) := ParseMember(s).value;
    assert t == t[..1] + t[1..];
    if t[0] == '}' {
      PrintMembersCons(m, []);
      Regroup(PrintMember(m), "", '}', t[1..]);
    } else {
      ParsedMembers(t[1..]);
      var (ms, rest) := ParseMembers(t[1..]).value;
      PrintMembersCons(m, ms);
      Regroup(PrintMember(m), PrintMembers(ms), '}', rest);
    }
  }

  // ----- What is printed is what is parsed --------------------------------------------------------

  // The text after a value that cannot be taken for more of it.
  predicate Delimits(r: string) {
    r == [] || !PrimChar(r[0])
  }

  lemma {:induction false} ScanWsOfPrint(w: string, r: string)
    requires AllWs(w) && (r == [] || !IsWs(r[0]))
    ensures ScanWs(w + r) == (w, r)
  {
    if w != [] {
      assert (w + r)[1..] == w[1..] + r;
      ScanWsOfPrint(w[1..], r);
      assert (w + r)[..1] + w[1..] == w;
    } else {
      assert w + r == r;
    }
  }

  lemma {:induction false} ScanPrimOfPrint(t: string, r: string)
    requires (forall i | 0 <= i < |t| :: PrimChar(t[i])) && Delimits(r)
    ensures ScanPrim(t + r) == (t, r)
  {
    if t != [] {
      assert (t + r)[1..] == t[1..] + r;
      ScanPrimOfPrint(t[1..], r);
      assert (t + r)[..1] + t[1..] == t;
    } else {
      assert t + r == r;
    }
  }

  lemma CharLenIsLocal(s: string, r: string)
    requires CharLen(s) > 0
    ensures CharLen(s + r) == CharLen(s)
  {
  }

  lemma {:induction false} ScanStrOfPrint(t: string, r: string)
    requires StrOk(t)
    ensures ScanStr(t + "\"" + r) == Some((t, r))
    decreases |t|
  {
    var s := t + "\"" + r;
    if t == [] {
      assert s == "\"" + r;
    } else {
      var n := CharLen(t);
      assert s == t + ("\"" + r);
      CharLenIsLocal(t, "\"" + r);
      assert s[n..] == t[n..] + "\"" + r;
      ScanStrOfPrint(t[n..], r);
      assert s[..n] + t[n..] == t;
    }
  }

  // The first character of a value, and that it is not white space.
  lemma FirstOfValue(v: Value, r: string)
    requires Wf(v)
    ensures var s := Print(v) + r;
            && s != [] && !IsWs(s[0]) && s[0] != ']' && s[0] != '}' && s[0] != ',' && s[0] != ':'
            && (v.Str? <==> s[0] == '"') && (v.Arr? <==> s[0] == '[') && (v.Obj? <==> s[0] == '{')
            && (v.Prim? <==> PrimChar(s[0]))
  {
    hide PrintItems, PrintMembers, WfItem, WfMember, StrOk, IsNumber;
    if v.Prim? {
      assert PrimChar(v.text[0]);
    }
  }

  lemma ScanToValue(pre: string, v: Value, r: string)
    requires AllWs(pre) && Wf(v)
    ensures ScanWs(pre + (Print(v) + r)) == (pre, Print(v) + r)
  {
    FirstOfValue(v, r);
    ScanWsOfPrint(pre, Print(v) + r);
  }

  // Text that may follow an element or member.
  predicate Follows(r: string) {
    r == [] || (!IsWs(r[0]) && !PrimChar(r[0]))
  }

  lemma PostDelimits(post: string, r: string)
    requires AllWs(post) && Follows(r)
    ensures Delimits(post + r) && ScanWs(post + r) == (post, r)
  {
    ScanWsOfPrint(post, r);
    assert post != [] ==> IsWs(post[0]);
  }

  lemma {:induction false} ParseOfValue(v: Value, r: string)
    requires Wf(v) && (v.Prim? ==> Delimits(r))
    ensures ParseValue(Print(v) + r) == Some((v, r))
    decreases v, 0
  {
    hide PrintItems, PrintMembers, ParseItems, ParseMembers, WfItem, WfMember, StrOk, AllWs, ScanStr, ScanWs, ScanPrim,
      IsNumber;
    var s := Print(v) + r;
    FirstOfValue(v, r);
    match v
    case Prim(t) =>
      ScanPrimOfPrint(t, r);
    case Str(t) =>
      assert s[1..] == t + "\"" + r;
      ScanStrOfPrint(t, r);
    case Arr(items, ws) =>
      if items == [] {
        assert s[1..] == ws + ("]" + r);
        ScanWsOfPrint(ws, "]" + r);
      } else {
        assert s[1..] == PrintItems(items) + "]" + r;
        ParseOfItems(items, r);
        ItemsOpen(items, r);
      }
    case Obj(members, ws) =>
      if members == [] {
        assert s[1..] == ws + ("}" + r);
        ScanWsOfPrint(ws, "}" + r);
      } else {
        assert s[1..] == PrintMembers(members) + "}" + r;
        ParseOfMembers(members, r);
        MembersOpen(members, r);
      }
  }

  lemma ItemsOpen(es: seq<Item>, r: string)
    requires es != [] && WfItem(es[0])
    ensures var (w, t) := ScanWs(PrintItems(es) + "]" + r); t == [] || t[0] != ']'
  {
    var e := es[0];
    var tail := if |es| == 1 then e.post + "]" + r else e.post + "," + PrintItems(es[1..]) + "]" + r;
    assert PrintItems(es) + "]" + r == e.pre + (Print(e.val) + tail);
    ScanToValue(e.pre, e.val, tail);
    FirstOfValue(e.val, tail);
  }

  lemma MembersOpen(ms: seq<Member>, r: string)
    requires ms != [] && WfMember(ms[0])
    ensures var (w, t) := ScanWs(PrintMembers(ms) + "}" + r); t == [] || t[0] != '}'
  {
    var m := ms[0];
    var s := PrintMembers(ms) + "}" + r;
    hide Print;
    var p := PrintMember(m);
    assert |p| > |m.pre| && p[..|m.pre|] == m.pre && p[|m.pre|] == '"';
    assert s[..|p|] == p;
    assert s[..|m.pre|] == p[..|m.pre|] && s[|m.pre|] == p[|m.pre|];
    assert s == m.pre + s[|m.pre|..];
    ScanWsOfPrint(m.pre, s[|m.pre|..]);
  }

  lemma {:induction false} ParseOfItem(e: Item, r: string)
    requires WfItem(e) && Follows(r)
    ensures ParseItem(PrintItem(e) + r) == Some((e, r))
    decreases e, 1
  {
    hide Print, Wf, ParseValue, ScanWs, AllWs;
    var tail := e.post + r;
    assert PrintItem(e) + r == e.pre + (Print(e.val) + tail);
    ScanToValue(e.pre, e.val, tail);
    PostDelimits(e.post, r);
    ParseOfValue(e.val, tail);
  }

  lemma {:induction false} ParseOfItems(es: seq<Item>, r: string)
    requires es != [] && forall e | e in es :: WfItem(e)
    ensures ParseItems(PrintItems(es) + "]" + r) == Some((es, r))
    decreases es, 2
  {
    hide PrintItem, WfItem, ParseItem;
    if |es| == 1 {
      assert PrintItems(es) + "]" + r == PrintItem(es[0]) + ("]" + r);
      ParseOfItem(es[0], "]" + r);
      assert es == [es[0]];
    } else {
      var t := PrintItems(es[1..]) + "]" + r;
      assert PrintItems(es) + "]" + r == PrintItem(es[0]) + ("," + t);
      ParseOfItem(es[0], "," + t);
      ParseOfItems(es[1..], r);
      assert ("," + t)[1..] == t && [es[0]] + es[1..] == es;
    }
  }

  lemma {:induction false} ParseOfMember(m: Member, r: string)
    requires WfMember(m) && Follows(r)
    ensures ParseMember(PrintMember(m) + r) == Some((m, r))
    decreases m, 1
  {
    hide Print, Wf, ParseValue, ScanWs, ScanStr, StrOk, AllWs;
    var e := m.post + r;
    var d := Print(m.val) + e;
    var c := ":" + (m.mid + d);
    var b := m.colon + c;
    var a := "\"" + (m.key + "\"" + b);
    RegroupMember(m.pre, m.key, m.colon, m.mid, Print(m.val), m.post, r);
    assert PrintMember(m) + r == m.pre + a;
    ScanWsOfPrint(m.pre, a);
    assert a[1..] == m.key + "\"" + b;
    ScanStrOfPrint(m.key, b);
    ScanWsOfPrint(m.colon, c);
    assert c[1..] == m.mid + d;
    ScanToValue(m.mid, m.val, e);
    PostDelimits(m.post, r);
    ParseOfValue(m.val, e);
  }

  lemma {:induction false} ParseOfMembers(ms: seq<Member>, r: string)
    requires ms != [] && forall m | m in ms :: WfMember(m)
    ensures ParseMembers(PrintMembers(ms) + "}" + r) == Some((ms, r))
    decreases ms, 2
  {
    hide PrintMember, WfMember, ParseMember;
    if |ms| == 1 {
      assert PrintMembers(ms) + "}" + r == PrintMember(ms[0]) + ("}" + r);
      ParseOfMember(ms[0], "}" + r);
      assert ms == [ms[0]];
    } else {
      var t := PrintMembers(ms[1..]) + "}" + r;
      assert PrintMembers(ms) + "}" + r == PrintMember(ms[0]) + ("," + t);
      ParseOfMember(ms[0], "," + t);
      ParseOfMembers(ms[1..], r);
      assert ("," + t)[1..] == t && [ms[0]] + ms[1..] == ms;
    }
  }

  // Parsing and printing are inverse: a text parses to a tree exactly when the tree is well formed
  // and the text is what it prints as.
  lemma ParseIffPrint(s: string, d: Doc)
    ensures Parse(s) == Some(d) <==> WfDoc(d) && PrintDoc(d) == s
  {
    hide PrintItem, ParseItem, Print, Wf, AllWs;
    if Parse(s) == Some(d) {
      ParsedItem(s);
      ItemOfDoc(d);
    }
    if WfDoc(d) && PrintDoc(d) == s {
      ItemOfDoc(d);
      ParseOfItem(Item(d.pre, d.root, d.post), "");
      assert s + "" == s;
    }
  }

  lemma ItemOfDoc(d: Doc)
    ensures PrintItem(Item(d.pre, d.root, d.post)) + "" == PrintDoc(d)
    ensures WfItem(Item(d.pre, d.root, d.post)) == WfDoc(d)
  {
  }

  // ----- Meaning ----------------------------------------------------------------------------------

  datatype Json = JPrim(text: string) | JStr(text: string) | JArr(items: seq<Json>) | JObj(members: seq<(string, Json)>)

  // A tree without its white space.
  function Abs(v: Value): Json
    decreases v
  {
    match v
    case Prim(t) => JPrim(t)
    case Str(t) => JStr(t)
    case Arr(items, _) => JArr(AbsItems(items))
    case Obj(members, _) => JObj(AbsMembers(members))
  }

  function AbsItems(es: seq<Item>): (r: seq<Json>)
    ensures |r| == |es|
    decreases es
  {
    if es == [] then [] else [Abs(es[0].val)] + AbsItems(es[1..])
  }

  function AbsMembers(ms: seq<Member>): (r: seq<(string, Json)>)
    ensures |r| == |ms|
    decreases ms
  {
    if ms == [] then [] else [(ms[0].key, Abs(ms[0].val))] + AbsMembers(ms[1..])
  }

  // What a text means, if it is JSON.
  function Meaning(s: string): Option<Json> {
    match Parse(s)
    case None => None
    case Some(d) => Some(Abs(d.root))
  }
}
