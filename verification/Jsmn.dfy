/** jsmn_parse of pkgs/jsmn/jsmn.cpp with JSMN_STRICT and without JSMN_PARENT_LINKS: the tokenizer that
    decides whether _cfg_parse_json takes a text, and what a lookup sees in it. */
module Jsmn {
  import opened Wrappers
  import opened JsonText
  import opened CfgWalk

  // A token of the array; its end is -1 while it is open.
  datatype Raw = Raw(kind: Kind, start: nat, end: int, size: nat) {
    predicate IsOpen() { end == -1 }
    predicate IsBox() { kind == TObj || kind == TArr }
  }

  // The tokens so far, and the one that the next value belongs to, -1 if none.
  datatype St = St(toks: seq<Raw>, super: int)

  // ----- One character and what it starts ---------------------------------------------------------

  // What ends a primitive, and what starts one.
  predicate Ends(c: char) {
    IsWs(c) || c == ',' || c == ']' || c == '}'
  }

  predicate BareStart(c: char) {
    c == '-' || IsDigit(c) || c == 't' || c == 'f' || c == 'n'
  }

  // jsmn_parse_primitive: how far it goes, None for a character it does not take or the end of the text.
  function BareLen(s: string): (r: Option<nat>)
    ensures r.Some? ==> r.value < |s| && Ends(s[r.value]) && forall i | 0 <= i < r.value :: !Ends(s[i])
  {
    if s == [] then None
    else if Ends(s[0]) then Some(0)
    else if s[0] < ' ' || s[0] >= 127 as char then None
    else match BareLen(s[1..]) case None => None case Some(n) => Some(n + 1)
  }

  predicate Escapes(c: char) {
    c in "\"/\\bfrnt"
  }

  // jsmn_parse_string, from after the opening quote: where the closing one is.
  function TextLen(s: string): (r: Option<nat>)
    ensures r.Some? ==> r.value < |s| && s[r.value] == '"'
    decreases |s|
  {
    if s == [] then None
    else if s[0] == '"' then Some(0)
    else if s[0] != '\\' then Skip(1, TextLen(s[1..]))
    else if |s| >= 2 && Escapes(s[1]) then Skip(2, TextLen(s[2..]))
    else if |s| >= 6 && s[1] == 'u' && IsHex(s[2]) && IsHex(s[3]) && IsHex(s[4]) && IsHex(s[5])
    then Skip(6, TextLen(s[6..]))
    else None
  }

  function Skip(n: nat, r: Option<nat>): Option<nat> {
    match r case None => None case Some(m) => Some(n + m)
  }

  // ----- The steps --------------------------------------------------------------------------------

  // The last token that is open, -1 if there is none.
  function LastOpen(ts: seq<Raw>): (i: int)
    ensures -1 <= i < |ts| && (i >= 0 ==> ts[i].IsOpen()) && forall j | i < j < |ts| :: !ts[j].IsOpen()
  {
    if ts == [] then -1
    else if ts[|ts| - 1].IsOpen() then |ts| - 1
    else LastOpen(ts[..|ts| - 1])
  }

  // One value more in token i.
  function Bump(ts: seq<Raw>, i: int): (r: seq<Raw>)
    ensures |r| == |ts|
  {
    if 0 <= i < |ts| then ts[i := ts[i].(size := ts[i].size + 1)] else ts
  }

  function Opens(st: St, kind: Kind, off: nat): St {
    St(Bump(st.toks, st.super) + [Raw(kind, off, -1, 0)], |st.toks|)
  }

  function Shuts(st: St, kind: Kind, off: nat): Option<St> {
    var i := LastOpen(st.toks);
    if i < 0 || st.toks[i].kind != kind then None
    else
      var ts := st.toks[i := st.toks[i].(end := off + 1)];
      Some(St(ts, LastOpen(ts)))
  }

  function Leaf(st: St, kind: Kind, start: nat, end: nat): St {
    St(Bump(st.toks, st.super) + [Raw(kind, start, end, 0)], st.super)
  }

  // A primitive must not be a key.
  predicate TakesBare(st: St) {
    0 <= st.super < |st.toks| ==>
      var t := st.toks[st.super]; t.kind != TObj && (t.kind == TStr ==> t.size == 0)
  }

  function Comma(st: St): St {
    if 0 <= st.super < |st.toks| && !st.toks[st.super].IsBox() && LastOpen(st.toks) >= 0
    then st.(super := LastOpen(st.toks))
    else st
  }

  function BoxKind(c: char): Kind {
    if c == '{' || c == '}' then TObj else TArr
  }

  // What the characters at the start of s do, and how many they are.  None is an error.
  function Took(st: St, s: string, off: nat): (r: Option<(St, nat)>)
    requires s != []
    ensures r.Some? ==> 1 <= r.value.1 <= |s|
  {
    var c := s[0];
    if IsWs(c) then Some((st, 1))
    else if c == '{' || c == '[' then Some((Opens(st, BoxKind(c), off), 1))
    else if c == '}' || c == ']' then
      (match Shuts(st, BoxKind(c), off) case None => None case Some(t) => Some((t, 1)))
    else if c == '"' then
      (match TextLen(s[1..]) case None => None case Some(n) => Some((Leaf(st, TStr, off + 1, off + 1 + n), n + 2)))
    else if c == ':' then Some((st.(super := |st.toks| - 1), 1))
    else if c == ',' then Some((Comma(st), 1))
    else if BareStart(c) && TakesBare(st) then
      (match BareLen(s) case None => None case Some(n) => Some((Leaf(st, TPrim, off, off + n), n)))
    else None
  }

  // What comes of the text s, which is at off, after the state st: all tokens, if they are complete.
  function ReadOn(st: St, s: string, off: nat): Option<seq<Raw>>
    decreases |s|
  {
    if s == [] then (if LastOpen(st.toks) < 0 then Some(st.toks) else None)
    else match Took(st, s, off)
      case None => None
      case Some((t, n)) => ReadOn(t, s[n..], off + n)
  }

  function Tokenized(s: string): Option<seq<Raw>> {
    ReadOn(St([], -1), s, 0)
  }

  // ----- The code ---------------------------------------------------------------------------------

  const NOMEM := -1
  const INVAL := -2
  const PART := -3

  // The rest of a primitive, and of a string, from where the position is.
  lemma BareAt(js: string, start: nat, pos: nat)
    requires start <= pos < |js| && !Ends(js[pos]) && forall i | start <= i < pos :: !Ends(js[i])
    requires BareLen(js[start..]) == Skip(pos - start, BareLen(js[pos..]))
    ensures BareLen(js[start..]) == if js[pos] < ' ' || js[pos] >= 127 as char then None
                                    else Skip(pos + 1 - start, BareLen(js[pos + 1..]))
  {
    assert js[pos..][0] == js[pos] && js[pos..][1..] == js[pos + 1..];
  }

  lemma BareEnds(js: string, pos: nat)
    requires pos <= |js| && (pos < |js| ==> Ends(js[pos]))
    ensures BareLen(js[pos..]) == if pos < |js| then Some(0) else None
  {
    assert pos < |js| ==> js[pos..][0] == js[pos];
  }

  // How many characters an escape takes, 0 if it is none.
  function EscLen(js: string, pos: nat): nat
    requires pos + 1 < |js|
  {
    if Escapes(js[pos + 1]) then 2 else if js[pos + 1] == 'u' && Hex4(js, pos + 2) then 6 else 0
  }

  lemma TextAt(js: string, pos: nat)
    requires pos < |js|
    ensures TextLen(js[pos..]) ==
            if js[pos] == '"' then Some(0)
            else if js[pos] != '\\' then Skip(1, TextLen(js[pos + 1..]))
            else if pos + 1 == |js| || EscLen(js, pos) == 0 then None
            else if EscLen(js, pos) == 2 then Skip(2, TextLen(js[pos + 2..]))
            else Skip(6, TextLen(js[pos + 6..]))
  {
    var s := js[pos..];
    assert s[0] == js[pos] && s[1..] == js[pos + 1..];
    if pos + 1 < |js| { assert s[1] == js[pos + 1] && s[2..] == js[pos + 2..]; }
    if pos + 5 < |js| {
      assert s[2] == js[pos + 2] && s[3] == js[pos + 3] && s[4] == js[pos + 4] && s[5] == js[pos + 5];
      assert s[6..] == js[pos + 6..];
    }
    hide IsHex, Escapes;
  }

  // The content of a string has been read from start to pos.
  predicate Reading(js: string, start: nat, pos: nat) {
    start <= pos <= |js| && TextLen(js[start..]) == Skip(pos - start, TextLen(js[pos..]))
  }

  lemma ReadStarts(js: string, pos: nat)
    requires pos <= |js|
    ensures Reading(js, pos, pos)
  {
    hide TextLen;
  }

  lemma ReadSkip(js: string, start: nat, pos: nat, n: nat)
    requires Reading(js, start, pos) && pos + n <= |js| && TextLen(js[pos..]) == Skip(n, TextLen(js[pos + n..]))
    ensures Reading(js, start, pos + n)
  {
    hide TextLen;
  }

  lemma ReadBad(js: string, start: nat, pos: nat)
    requires Reading(js, start, pos) && TextLen(js[pos..]) == None
    ensures TextLen(js[start..]) == None
  {
    hide TextLen;
  }

  lemma ReadChar(js: string, start: nat, pos: nat)
    requires Reading(js, start, pos) && pos < |js| && js[pos] != '"' && js[pos] != '\\'
    ensures Reading(js, start, pos + 1)
  {
    TextAt(js, pos);
    hide TextLen, EscLen, Reading;
    ReadSkip(js, start, pos, 1);
  }

  lemma ReadEscape(js: string, start: nat, pos: nat)
    requires Reading(js, start, pos) && pos < |js| && js[pos] == '\\'
    ensures if pos + 1 == |js| || EscLen(js, pos) == 0 then TextLen(js[start..]) == None
            else pos + EscLen(js, pos) <= |js| && Reading(js, start, pos + EscLen(js, pos))
  {
    TextAt(js, pos);
    hide TextLen, Reading, Escapes, IsHex;
    if pos + 1 == |js| || EscLen(js, pos) == 0 {
      ReadBad(js, start, pos);
    } else {
      ReadSkip(js, start, pos, EscLen(js, pos));
    }
  }

  lemma ReadEnds(js: string, start: nat, pos: nat)
    requires Reading(js, start, pos) && (pos < |js| ==> js[pos] == '"')
    ensures TextLen(js[start..]) == if pos < |js| then Some(pos - start) else None
  {
    if pos < |js| { TextAt(js, pos); } else { assert js[pos..] == []; }
  }

  predicate Hex4(js: string, i: nat) {
    i + 3 < |js| && IsHex(js[i]) && IsHex(js[i + 1]) && IsHex(js[i + 2]) && IsHex(js[i + 3])
  }

  lemma ErrorCodes()
    ensures NOMEM == -1 && INVAL == -2 && PART == -3
  {
  }

  class Parser {
    var pos: nat
    var toknext: nat
    var toksuper: int

    // jsmn_init
    constructor ()
      ensures pos == 0 && toknext == 0 && toksuper == -1
    {
      pos, toknext, toksuper := 0, 0, -1;
    }

    ghost predicate Valid(js: string, tokens: array<Raw>)
      reads this, tokens
    {
      && pos <= |js| && toknext <= tokens.Length && toknext <= pos && -1 <= toksuper < toknext
      && forall i | 0 <= i < toknext :: tokens[i].IsOpen() ==> tokens[i].IsBox()
    }

    ghost function Abs(tokens: array<Raw>): St
      requires toknext <= tokens.Length
      reads this, tokens
    {
      St(tokens[..toknext], toksuper)
    }

    // jsmn_parse_primitive: leaves the position at what ends the primitive.
    method ParsePrimitive(js: string) returns (err: int)
      requires pos < |js|
      modifies this`pos
      ensures err == 0 || err == INVAL || err == PART
      ensures match BareLen(js[old(pos)..])
              case None => err != 0
              case Some(n) => err == 0 && pos == old(pos) + n
    {
      hide BareLen, Ends;
      var start := pos;
      while pos < |js| && !Ends(js[pos])
        invariant start <= pos <= |js| && forall i | start <= i < pos :: !Ends(js[i])
        invariant BareLen(js[start..]) == Skip(pos - start, BareLen(js[pos..]))
      {
        BareAt(js, start, pos);
        if js[pos] < ' ' || js[pos] >= 127 as char {
          pos := start;
          return INVAL;
        }
        pos := pos + 1;
      }
      BareEnds(js, pos);
      if pos == |js| {
        pos := start;
        return PART;
      }
      return 0;
    }

    // The four digits after \u.
    method ParseHex(js: string) returns (ok: bool)
      requires pos <= |js|
      modifies this`pos
      ensures ok <==> Hex4(js, old(pos))
      ensures ok ==> pos == old(pos) + 4
    {
      hide IsHex;
      var i, at := 0, pos;
      while i < 4 && pos < |js|
        invariant i <= 4 && pos == at + i <= |js| && forall k | at <= k < pos :: IsHex(js[k])
      {
        if !IsHex(js[pos]) {
          return false;
        }
        pos := pos + 1;
        i := i + 1;
      }
      ok := i == 4;
    }

    // What follows a backslash.
    method ParseEscape(js: string) returns (ok: bool)
      requires pos + 1 < |js|
      modifies this`pos
      ensures ok <==> EscLen(js, old(pos)) > 0
      ensures ok ==> pos == old(pos) + EscLen(js, old(pos)) <= |js|
    {
      hide IsHex, Escapes;
      pos := pos + 1;
      if Escapes(js[pos]) {
        pos := pos + 1;
        return true;
      }
      if js[pos] != 'u' {
        return false;
      }
      pos := pos + 1;
      ok := ParseHex(js);
    }

    // jsmn_parse_string: leaves the position at the closing quote.
    method ParseString(js: string) returns (err: int)
      requires pos < |js|
      modifies this`pos
      ensures err == 0 || err == INVAL || err == PART
      ensures match TextLen(js[old(pos) + 1..])
              case None => err != 0
              case Some(n) => err == 0 && pos == old(pos) + 1 + n
    {
      hide *;
      ErrorCodes();
      var start := pos;
      pos := pos + 1;
      ReadStarts(js, pos);
      while pos < |js|
        invariant start < pos <= |js| && Reading(js, start + 1, pos)
      {
        if js[pos] == '"' {
          ReadEnds(js, start + 1, pos);
          return 0;
        }
        if js[pos] != '\\' {
          ReadChar(js, start + 1, pos);
          pos := pos + 1;
          continue;
        }
        ReadEscape(js, start + 1, pos);
        if pos + 1 == |js| {
          pos := start;
          return PART;
        } else {
          var ok := ParseEscape(js);
          if !ok {
            pos := start;
            return INVAL;
          }
        }
      }
      ReadEnds(js, start + 1, pos);
      pos := start;
      return PART;
    }

    // One value more in the token that values belong to.
    method CountIn(tokens: array<Raw>)
      requires toknext <= tokens.Length && -1 <= toksuper < toknext
      modifies tokens
      ensures tokens[..toknext] == Bump(old(tokens[..toknext]), toksuper)
    {
      if toksuper != -1 {
        tokens[toksuper] := tokens[toksuper].(size := tokens[toksuper].size + 1);
      }
    }

    // A string or primitive, or NOMEM.
    method AddLeaf(tokens: array<Raw>, kind: Kind, start: nat, end: nat) returns (err: int)
      requires toknext <= tokens.Length && -1 <= toksuper < toknext
      modifies this`toknext, tokens
      ensures err == if old(toknext) < tokens.Length then 0 else NOMEM
      ensures err == 0 ==> toknext == old(toknext) + 1 && Abs(tokens) == Leaf(old(Abs(tokens)), kind, start, end)
      ensures err != 0 ==> toknext == old(toknext)
    {
      if toknext >= tokens.Length {
        return NOMEM;
      }
      ghost var ts := tokens[..toknext];
      tokens[toknext] := Raw(kind, start, end, 0);
      toknext := toknext + 1;
      assert tokens[..toknext] == ts + [Raw(kind, start, end, 0)];
      CountIn(tokens);
      return 0;
    }

    method OpenBox(tokens: array<Raw>, kind: Kind) returns (err: int)
      requires toknext <= tokens.Length && -1 <= toksuper < toknext
      modifies this`toknext, this`toksuper, tokens
      ensures err == if old(toknext) < tokens.Length then 0 else NOMEM
      ensures err == 0 ==> toknext == old(toknext) + 1 && toksuper == old(toknext)
                           && Abs(tokens) == Opens(old(Abs(tokens)), kind, pos)
      ensures err != 0 ==> toknext == old(toknext) && toksuper == old(toksuper)
    {
      if toknext >= tokens.Length {
        return NOMEM;
      }
      ghost var ts := tokens[..toknext];
      tokens[toknext] := Raw(kind, pos, -1, 0);
      toknext := toknext + 1;
      assert tokens[..toknext] == ts + [Raw(kind, pos, -1, 0)];
      CountIn(tokens);
      toksuper := toknext - 1;
      return 0;
    }

    // The last open token below n.
    method FindOpen(tokens: array<Raw>, n: nat) returns (i: int)
      requires n <= tokens.Length
      ensures i == LastOpen(tokens[..n])
    {
      i := n - 1;
      while i >= 0 && tokens[i].end != -1
        invariant -1 <= i < n && LastOpen(tokens[..n]) == LastOpen(tokens[..i + 1])
      {
        assert tokens[..i + 1][..i] == tokens[..i];
        i := i - 1;
      }
    }

    method CloseBox(tokens: array<Raw>, kind: Kind) returns (err: int)
      requires toknext <= tokens.Length
      modifies this`toksuper, tokens
      ensures match Shuts(old(Abs(tokens)), kind, pos)
              case None => err == INVAL
              case Some(t) => err == 0 && Abs(tokens) == t
    {
      var i := FindOpen(tokens, toknext);
      if i == -1 || tokens[i].kind != kind {
        return INVAL;
      }
      ghost var ts := tokens[..toknext];
      tokens[i] := tokens[i].(end := pos + 1);
      assert tokens[..toknext] == ts[i := ts[i].(end := pos + 1)];
      toksuper := FindOpen(tokens, toknext);
      return 0;
    }

    method TakeComma(tokens: array<Raw>)
      requires toknext <= tokens.Length && -1 <= toksuper < toknext
      requires forall i | 0 <= i < toknext :: tokens[i].IsOpen() ==> tokens[i].IsBox()
      modifies this`toksuper
      ensures Abs(tokens) == Comma(old(Abs(tokens)))
    {
      if toksuper != -1 && !tokens[toksuper].IsBox() {
        var i := FindOpen(tokens, toknext);
        if i >= 0 {
          toksuper := i;
        }
      }
    }

    // A string, and a primitive: where it ends, and its token.
    method TakeString(js: string, tokens: array<Raw>) returns (err: int)
      requires Valid(js, tokens) && pos < |js|
      modifies this`pos, this`toknext, tokens
      ensures err == 0 ==> toknext == old(toknext) + 1 <= tokens.Length && toksuper == old(toksuper)
      ensures match TextLen(js[old(pos) + 1..])
              case None => err == INVAL || err == PART
              case Some(n) =>
                && (err == 0 || (err == NOMEM && old(toknext) == tokens.Length))
                && (err == 0 ==>
                          pos == old(pos) + n + 2
                          && Abs(tokens) == Leaf(old(Abs(tokens)), TStr, old(pos) + 1, old(pos) + 1 + n))
    {
      var start := pos;
      err := ParseString(js);
      if err == 0 {
        err := AddLeaf(tokens, TStr, start + 1, pos);
        pos := pos + 1;
      }
    }

    method TakeBare(js: string, tokens: array<Raw>) returns (err: int)
      requires Valid(js, tokens) && pos < |js|
      modifies this`pos, this`toknext, tokens
      ensures err == 0 ==> toknext == old(toknext) + 1 <= tokens.Length && toksuper == old(toksuper)
      ensures match BareLen(js[old(pos)..])
              case None => err == INVAL || err == PART
              case Some(n) =>
                TakesBare(old(Abs(tokens))) ==>
                && (err == 0 || (err == NOMEM && old(toknext) == tokens.Length))
                && (err == 0 ==>
                          pos == old(pos) + n
                          && Abs(tokens) == Leaf(old(Abs(tokens)), TPrim, old(pos), old(pos) + n))
      ensures !TakesBare(old(Abs(tokens))) ==> err == INVAL
    {
      if toksuper != -1 {
        var t := tokens[toksuper];
        if t.kind == TObj || (t.kind == TStr && t.size != 0) {
          return INVAL;
        }
      }
      var start := pos;
      err := ParsePrimitive(js);
      if err == 0 {
        err := AddLeaf(tokens, TPrim, start, pos);
      }
    }

    // One turn of the loop.
    method OneStep(js: string, tokens: array<Raw>) returns (err: int)
      requires Valid(js, tokens) && pos < |js|
      modifies this, tokens
      ensures match Took(old(Abs(tokens)), js[old(pos)..], old(pos))
              case None => err == INVAL || err == PART
              case Some((t, n)) =>
                && (err == 0 || (err == NOMEM && |t.toks| > tokens.Length))
                && (err == 0 ==> toknext <= tokens.Length && Abs(tokens) == t && pos == old(pos) + n)
      ensures err == NOMEM ==> tokens.Length <= |js|
    {
      var c := js[pos];
      assert js[pos..][0] == c && js[pos..][1..] == js[pos + 1..];
      err := 0;
      if c == '{' || c == '[' {
        err := OpenBox(tokens, BoxKind(c));
        pos := pos + 1;
      } else if c == '}' || c == ']' {
        err := CloseBox(tokens, BoxKind(c));
        pos := pos + 1;
      } else if c == '"' {
        err := TakeString(js, tokens);
      } else if IsWs(c) {
        pos := pos + 1;
      } else if c == ':' {
        toksuper := toknext - 1;
        pos := pos + 1;
      } else if c == ',' {
        TakeComma(tokens);
        pos := pos + 1;
      } else if BareStart(c) {
        err := TakeBare(js, tokens);
      } else {
        err := INVAL;
      }
    }

    // jsmn_parse, from the start: how many tokens there are, or what is wrong.
    method Parse(js: string, tokens: array<Raw>) returns (rc: int)
      requires pos == 0 && toknext == 0 && toksuper == -1
      modifies this, tokens
      ensures rc >= 0 || rc == NOMEM || rc == INVAL || rc == PART
      ensures rc >= 0 ==> rc <= tokens.Length && Tokenized(js) == Some(tokens[..rc])
      ensures rc == INVAL || rc == PART ==> Tokenized(js) == None
      ensures rc == NOMEM ==> tokens.Length <= |js| && (Tokenized(js).Some? ==> |Tokenized(js).value| > tokens.Length)
    {
      hide Took, ReadOn;
      assert tokens[..0] == [] && js[0..] == js;
      while pos < |js|
        invariant Valid(js, tokens) && Tokenized(js) == ReadOn(Abs(tokens), js[pos..], pos)
        decreases |js| - pos
      {
        ghost var st, at := Abs(tokens), pos;
        AfterFirst(st, js, at);
        GoodStep(st, js[at..], at);
        var err := OneStep(js, tokens);
        if err != 0 {
          if err == NOMEM {
            var t := Took(st, js[at..], at).value;
            AfterGrows(t.0, js[at + t.1..], at + t.1);
          }
          return err;
        }
        assert forall i | 0 <= i < toknext :: tokens[i] == Abs(tokens).toks[i];
      }
      AfterNothing(Abs(tokens), pos);
      assert js[pos..] == [];
      var i := FindOpen(tokens, toknext);
      return if i >= 0 then PART else toknext;
    }
  }

  // ----- States -----------------------------------------------------------------------------------

  predicate Good(st: St, pos: nat) {
    && |st.toks| <= pos && -1 <= st.super < |st.toks|
    && forall i | 0 <= i < |st.toks| :: st.toks[i].IsOpen() ==> st.toks[i].IsBox()
  }

  lemma GoodStep(st: St, s: string, off: nat)
    requires s != [] && Good(st, off)
    ensures Took(st, s, off).Some? ==> var (t, n) := Took(st, s, off).value; Good(t, off + n)
  {
    hide BareLen, TextLen, IsDigit;
  }

  lemma AfterFirst(st: St, js: string, off: nat)
    requires off < |js|
    ensures ReadOn(st, js[off..], off) == match Took(st, js[off..], off)
                                         case None => None
                                         case Some((t, n)) => ReadOn(t, js[off + n..], off + n)
  {
    hide Took;
    if Took(st, js[off..], off).Some? {
      var n := Took(st, js[off..], off).value.1;
      assert js[off..][n..] == js[off + n..];
    }
  }

  lemma AfterNothing(st: St, off: nat)
    ensures ReadOn(st, [], off) == if LastOpen(st.toks) < 0 then Some(st.toks) else None
  {
  }

  // A token keeps its kind, its start and its end, and its size does not get smaller.
  predicate Keeps(a: seq<Raw>, b: seq<Raw>) {
    && |a| <= |b|
    && forall i | 0 <= i < |a| :: b[i].kind == a[i].kind && b[i].start == a[i].start && b[i].size >= a[i].size
                                  && (!a[i].IsOpen() ==> b[i].end == a[i].end)
  }

  lemma TookKeeps(st: St, s: string, off: nat)
    requires s != []
    ensures Took(st, s, off).Some? ==> Keeps(st.toks, Took(st, s, off).value.0.toks)
  {
    hide BareLen, TextLen, IsDigit;
  }

  lemma {:induction false} AfterGrows(st: St, s: string, off: nat)
    ensures ReadOn(st, s, off).Some? ==> Keeps(st.toks, ReadOn(st, s, off).value)
    decreases |s|
  {
    hide Took;
    if s != [] && Took(st, s, off).Some? {
      var (t, n) := Took(st, s, off).value;
      TookKeeps(st, s, off);
      AfterGrows(t, s[n..], off + n);
    }
  }

  // A token that is complete, that values do not belong to and that is not the last one stays as it is.
  predicate Frozen(st: St, i: nat) {
    i + 1 < |st.toks| && !st.toks[i].IsOpen() && i != st.super
  }

  lemma TookFrozen(st: St, s: string, off: nat, i: nat)
    requires s != [] && Frozen(st, i)
    ensures Took(st, s, off).Some? ==> var t := Took(st, s, off).value.0; Frozen(t, i) && t.toks[i] == st.toks[i]
  {
    hide BareLen, TextLen, IsDigit;
  }

  lemma {:induction false} AfterFrozen(st: St, s: string, off: nat, i: nat)
    requires Frozen(st, i)
    ensures ReadOn(st, s, off).Some? ==> i < |ReadOn(st, s, off).value| && ReadOn(st, s, off).value[i] == st.toks[i]
    decreases |s|
  {
    hide Took;
    if s != [] && Took(st, s, off).Some? {
      var (t, n) := Took(st, s, off).value;
      TookFrozen(st, s, off, i);
      AfterFrozen(t, s[n..], off + n, i);
    }
  }
}
