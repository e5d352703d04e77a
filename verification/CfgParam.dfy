/** Setting a parameter, from its name to the new text: _cfg_set_int and _cfg_set_string of cfg/cfg.cpp,
    with the lookups, the cut, the insertion and the parsing in between, on any text that jsmn_parse
    takes. */
module CfgParam {
  import opened Wrappers
  import opened JsonText
  import opened CfgText
  import opened CfgSet
  import opened CfgWalk
  import opened CfgFind
  import opened CfgPlaces
  import opened CfgBuffer
  import opened JsmnRead
  import Jsmn

  // ----- Which values are replaced ----------------------------------------------------------------

  predicate IsNull(text: string) {
    |text| >= 4 && text[..4] == "null"
  }

  // What _cfg_set_int takes a value for: a number or null.
  predicate IsInt(text: string) {
    text != [] && (text[0] == '-' || IsDigit(text[0]) || IsNull(text))
  }

  // The value a member has can be replaced: by _cfg_set_string a string or null, by _cfg_set_int a
  // number or null.
  predicate Suits(forString: bool, v: Value) {
    if forString then v.Str? || (v.Prim? && IsNull(v.text)) else v.Prim? && IsInt(v.text)
  }

  // The values they set.
  predicate Settable(v: Value) {
    Wf(v) && !IsBox(v)
  }

  predicate AfterQuote(t: string, start: nat) {
    0 < start <= |t| && t[start - 1] == '"'
  }

  // The key in front of token k, and the length of the value, quotes included.  What comes after a quote
  // is taken for a string by _cfg_set_string, which asserts that it is one.
  function Replaceable(t: string, toks: seq<Tok>, k: nat, forString: bool): Option<(Tok, nat)> {
    if !(1 <= k < |toks| && toks[k].start <= toks[k].end) then None
    else
      var jt := toks[k];
      if jt.kind == TPrim then
        if (if forString then IsNull(TextOf(t, jt)) && !AfterQuote(t, jt.start) else IsInt(TextOf(t, jt)))
        then Some((toks[k - 1], jt.end - jt.start))
        else None
      else if forString && jt.kind == TStr && jt.size == 0 then Some((toks[k - 1], jt.end - jt.start + QUOTES))
      else None
  }

  // ----- The calls on a text and its tokens -------------------------------------------------------

  // The pointers of the cut stay inside the text.
  predicate CanCut(t: string, keyStart: nat, keyEnd: nat, valLen: nat) {
    && 2 <= keyStart <= keyEnd && keyEnd + 2 + valLen <= |t|
    && BackOver(t, keyStart - 2) >= 0 && OverInside(t, keyEnd + 2) + valLen <= |t|
  }

  // A panic (or an access outside of the text or of the walk's stack), nothing to remove, or the text
  // left and the place of the cut.
  datatype Removal = Fails | NotThere | Cut(text: string, pos: nat)

  // CFG_REMOVE
  function RemoveOn(t: string, toks: seq<Tok>, name: Name, forString: bool): (r: Removal)
    ensures r.Cut? ==> |r.text| < |t|
  {
    match Looks(t, toks, name, false)
    case None => Fails
    case Some(found) => if found.At? then CutOn(t, Replaceable(t, toks, found.tok, forString)) else NotThere
  }

  function CutOn(t: string, value: Option<(Tok, nat)>): (r: Removal)
    ensures !r.NotThere? && (r.Cut? ==> |r.text| < |t|)
  {
    match value
    case None => Fails
    case Some((key, n)) =>
      if !CanCut(t, key.start, key.end, n) then Fails
      else
        CutShortens(t, key.start, key.end, n);
        match CutText(t, key.start, key.end, n) case None => Fails case Some((u, pos)) => Cut(u, pos)
  }

  lemma CutShortens(t: string, keyStart: nat, keyEnd: nat, valLen: nat)
    requires CanCut(t, keyStart, keyEnd, valLen)
    ensures var r := CutText(t, keyStart, keyEnd, valLen); r.Some? ==> |r.value.0| < |t|
  {
    BackOverIsBefore(t, keyStart - 2);
  }

  lemma BackOverIsBefore(t: string, i: int)
    requires -1 <= i < |t|
    ensures BackOver(t, i) <= i
  {
  }

  // CFG_CHANGE at the place of a cut: looked up again, cut again if it is still there.  None as above.
  // CFG_NO_DOT does not get this far.
  function ChangeOn(t: string, toks: seq<Tok>, name: string, val: Value, pos: nat): Option<string>
    decreases |t|, 1
  {
    match Looks(t, toks, NameOf(name, false), false)
    case None => None
    case Some(found) =>
      if found.At? then ReplaceOn(t, toks, name, val)
      else InsertOn(t, pos, if found.OnlyFirst? then AfterDot(name) else name, val)
  }

  // CFG_REMOVE, and CFG_CHANGE at the place it returns, which is 0 if there was nothing to remove.
  function ReplaceOn(t: string, toks: seq<Tok>, name: string, val: Value): Option<string>
    decreases |t|, if RemoveOn(t, toks, NameOf(name, false), val.Str?).NotThere? then 2 else 0
  {
    match RemoveOn(t, toks, NameOf(name, false), val.Str?)
    case Fails => None
    case NotThere => ChangeOn(t, toks, name, val, 0)
    case Cut(u, pos) => match Tokens(u) case None => None case Some(ts) => ChangeOn(u, ts, name, val, pos)
  }

  function InsertOn(t: string, pos: int, id: string, val: Value): Option<string> {
    if 0 <= pos < |t| && (pos == 0 ==> t[0] != '}') then Some(InsText(t, pos, PrintMember(Plain(id, val)))) else None
  }

  // CFG_SET
  function SetOn(t: string, toks: seq<Tok>, name: string, noDot: bool, val: Value): Option<string> {
    match Looks(t, toks, NameOf(name, noDot), false)
    case None => None
    case Some(found) =>
      if found.At? then ReplaceOn(t, toks, name, val)
      else match PlaceOn(t, toks, name, found.OnlyFirst?)
        case None => None
        case Some(pos) => InsertOn(t, pos, if found.OnlyFirst? then AfterDot(name) else name, val)
  }

  // Where a parameter goes that is not there: behind the first character of the value of its first
  // part, or in front of the text's last character.
  function PlaceOn(t: string, toks: seq<Tok>, name: string, first: bool): Option<int> {
    if !first then Some(|t| - 1)
    else match Looks(t, toks, NameOf(name, false), true)
      case None => None
      case Some(found) => if found.At? && found.tok < |toks| then Some(toks[found.tok].start + 1) else None
  }

  function AfterDot(name: string): string {
    var n := UpTo(name, '.');
    if n == |name| then name else name[n + 1..]
  }

  lemma NothingToCut(t: string)
    ensures CutOn(t, None) == Fails
  {
  }

  // ----- The code ---------------------------------------------------------------------------------

  class Config {
    const buf: TextBuffer
    var tokSize: nat
    var toks: seq<Tok>

    // The tokens are those of the text.
    ghost predicate Valid()
      reads this, buf, buf.json
    {
      buf.Valid() && Tokens(buf.text) == Some(toks)
    }

    constructor (size: nat)
      requires size > 2
      ensures Valid() && fresh(buf) && fresh(buf.json) && buf.text == "{}" && buf.json.Length == size
    {
      hide Tokens, PrintDoc;
      buf := new TextBuffer(size);
      tokSize := 0;
      toks := [];
      new;
      buf.json[0] := '{';
      buf.json[1] := '}';
      buf.json[2] := NUL;
      buf.text := "{}";
      EmptyIsRead();
      var parsed := ParseText();
    }

    // _cfg_parse_json: more room for tokens until they fit.  The code panics if it does not parse.
    method ParseText() returns (parsed: bool)
      requires buf.Valid()
      modifies this`toks, this`tokSize
      ensures match Tokens(buf.text) case None => !parsed case Some(ts) => parsed && toks == ts
    {
      var js := buf.Read();
      if tokSize == 0 {
        tokSize := 64;
      }
      hide Jsmn.Tokenized;
      while true
        invariant tokSize > 0
        decreases |js| - tokSize
      {
        var tokens := new Jsmn.Raw[tokSize];
        var parser := new Jsmn.Parser();
        var rc := parser.Parse(js, tokens);
        if rc >= 0 {
          toks := AsToks(tokens[..rc]);
          return true;
        }
        if rc != Jsmn.NOMEM {
          return false;
        }
        tokSize := tokSize * 4;
      }
    }

    // The cut, and parsing what is left.
    method CutOut(key: Tok, valLen: nat) returns (ok: bool, pos: nat)
      requires Valid()
      modifies this`toks, this`tokSize, buf, buf.json
      ensures buf.Valid() && buf.json == old(buf.json)
      ensures match old(CutOn(buf.text, Some((key, valLen))))
              case Cut(u, p) => buf.text == u && pos == p && ok == Tokens(u).Some? && (ok ==> Valid())
              case _ => !ok && Valid() && buf.text == old(buf.text)
    {
      hide CutText, Tokens, BackOver, OverInside, Has;
      var s := buf.Read();
      if !CanCut(s, key.start, key.end, valLen) {
        return false, 0;
      }
      var cut := buf.Cut(key.start, key.end, valLen);
      if cut.None? {
        return false, 0;
      }
      pos := cut.value;
      ok := ParseText();
    }

    // CFG_REMOVE: where the member was, 0 if there is none; a panic unless ok.
    method Remove(name: string, noDot: bool, forString: bool) returns (ok: bool, pos: nat)
      requires Valid()
      modifies this`toks, this`tokSize, buf, buf.json
      ensures buf.Valid() && buf.json == old(buf.json)
      ensures match old(RemoveOn(buf.text, toks, NameOf(name, noDot), forString))
              case Fails => !ok && Valid() && buf.text == old(buf.text)
              case NotThere => ok && pos == 0 && Valid() && buf.text == old(buf.text)
              case Cut(u, p) => buf.text == u && pos == p && ok == Tokens(u).Some? && (ok ==> Valid())
    {
      hide Looks, Replaceable, Tokens, NameOf, CutOn, Has;
      var s := buf.Read();
      var found, deep := LookupJson(s, toks, name, if noDot then NoDot else Plainly);
      if deep {
        return false, 0;
      }
      if !found.At? {
        return true, 0;
      }
      var value := Replaceable(s, toks, found.tok, forString);
      NothingToCut(s);
      if value.None? {
        return false, 0;
      }
      ok, pos := CutOut(value.value.0, value.value.1);
    }

    // The insertion, after making room for the member, a comma and the NUL.
    method Insert(pos: nat, id: string, val: Value) returns (parsed: bool)
      requires buf.Valid() && NoNul(id) && NoNul(Print(val)) && pos < |buf.text| && (pos == 0 ==> buf.text[0] != '}')
      modifies this`toks, this`tokSize, buf, buf.json
      ensures buf.Valid() && buf.text == old(InsText(buf.text, pos, PrintMember(Plain(id, val)))) && fresh(buf.json)
      ensures parsed == Tokens(buf.text).Some? && (parsed ==> Valid())
    {
      hide Print, Tokens, InsText, PrintMember;
      MemberText(id, val);
      var m := "\"" + id + "\":" + Print(val);
      buf.Realloc(buf.json.Length + (|m| + 1) + 1);
      buf.Ins(pos, m);
      parsed := ParseText();
    }

    // CFG_CHANGE at the place the member was cut from.
    method Change(name: string, val: Value, pos: nat) returns (ok: bool)
      requires Valid() && NoNul(name) && NoNul(Print(val))
      modifies this`toks, this`tokSize, buf, buf.json
      ensures buf.Valid()
      ensures match old(ChangeOn(buf.text, toks, name, val, pos))
              case None => !ok
              case Some(u) => buf.text == u && ok == Tokens(u).Some? && (ok ==> Valid())
      decreases |buf.text|, 1
    {
      hide Looks, Tokens, NameOf, InsText, Print, PrintMember, AfterDot, CutOn;
      var s := buf.Read();
      var found, deep := LookupJson(s, toks, name, Plainly);
      if deep {
        return false;
      }
      if found.At? {
        ok := Replace(name, val);
        return;
      }
      if pos >= |s| || (pos == 0 && s[0] == '}') {
        return false;
      }
      NoNulAfterDot(name);
      ok := Insert(pos, if found.OnlyFirst? then AfterDot(name) else name, val);
    }

    // Removing what is there and putting it back with the value.
    method Replace(name: string, val: Value) returns (ok: bool)
      requires Valid() && NoNul(name) && NoNul(Print(val))
      modifies this`toks, this`tokSize, buf, buf.json
      ensures buf.Valid()
      ensures match old(ReplaceOn(buf.text, toks, name, val))
              case None => !ok
              case Some(u) => buf.text == u && ok == Tokens(u).Some? && (ok ==> Valid())
      decreases |buf.text|, if RemoveOn(buf.text, toks, NameOf(name, false), val.Str?).NotThere? then 2 else 0
    {
      hide Looks, Tokens, NameOf, Print, CutOn, RemoveOn, ChangeOn;
      var pos;
      ok, pos := Remove(name, false, val.Str?);
      if !ok {
        return;
      }
      ok := Change(name, val, pos);
    }

    // Where a parameter that is not there goes.
    method PlaceForNew(name: string, first: bool) returns (pos: Option<int>)
      requires Valid()
      ensures pos == PlaceOn(buf.text, toks, name, first)
    {
      hide Looks, Tokens, NameOf;
      var s := buf.Read();
      if !first {
        return Some(|s| - 1);
      }
      var found, deep := LookupJson(s, toks, name, FirstOnly);
      if deep || !found.At? || found.tok >= |toks| {
        return None;
      }
      return Some(toks[found.tok].start + 1);
    }

    // _cfg_set_int and _cfg_set_string with CFG_SET: the text made, and whether it parses.  The code
    // panics unless ok.
    method Set(name: string, noDot: bool, val: Value) returns (ok: bool)
      requires Valid() && NoNul(name) && NoNul(Print(val))
      modifies this`toks, this`tokSize, buf, buf.json
      ensures buf.Valid()
      ensures match old(SetOn(buf.text, toks, name, noDot, val))
              case None => !ok
              case Some(u) => buf.text == u && ok == Tokens(u).Some? && (ok ==> Valid())
    {
      hide Looks, Tokens, NameOf, InsText, Print, PrintMember, AfterDot, RemoveOn, ReplaceOn, PlaceOn;
      var s := buf.Read();
      var found, deep := LookupJson(s, toks, name, if noDot then NoDot else Plainly);
      if deep {
        return false;
      }
      if found.At? {
        ok := Replace(name, val);
        return;
      }
      var pos := PlaceForNew(name, found.OnlyFirst?);
      if pos.None? || !(0 <= pos.value < |s|) || (pos.value == 0 && s[0] == '}') {
        return false;
      }
      NoNulAfterDot(name);
      ok := Insert(pos.value, if found.OnlyFirst? then AfterDot(name) else name, val);
    }
  }

  lemma NoNulAfterDot(name: string)
    requires NoNul(name)
    ensures NoNul(AfterDot(name))
  {
  }

  lemma EmptyIsRead()
    ensures Tokens("{}").Some?
  {
    var d := Doc("", Obj([], ""), "");
    assert PrintDoc(d) == "{}";
    DocReads(d);
  }
}
