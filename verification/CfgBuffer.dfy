/** The configuration text in its character buffer, edited in place: _cfg_cut, _cfg_ins and
    _cfg_realloc_json of cfg/cfg.cpp, with their pointer loops. */
module CfgBuffer {
  import opened Wrappers
  import opened JsonText
  import opened CfgText

  const NUL := '\0'

  predicate NoNul(s: string) {
    forall i | 0 <= i < |s| :: s[i] != NUL
  }

  // A buffer holds a text: its characters up to the first NUL.
  ghost predicate Has(a: array<char>, s: string)
    reads a
  {
    && |s| < a.Length && NoNul(s)
    && (forall i | 0 <= i < |s| :: a[i] == s[i])
    && a[|s|] == NUL
  }

  method StrLen(a: array<char>, ghost s: string, from: nat) returns (n: nat)
    requires Has(a, s) && from <= |s|
    ensures from + n == |s|
  {
    var i := from;
    while a[i] != NUL
      invariant from <= i <= |s|
      decreases |s| - i
    {
      i := i + 1;
    }
    n := i - from;
  }

  // What an insertion puts between the two parts of a text.
  function Between(t: string, pos: nat, val: string): string
    requires pos < |t| && (pos == 0 ==> t[0] != '}')
  {
    if t[pos] == '}' && t[pos - 1] == '{' then val else if t[pos] == '}' then "," + val else val + ","
  }

  lemma InsTextIs(t: string, pos: nat, val: string)
    requires pos < |t| && (pos == 0 ==> t[0] != '}')
    ensures InsText(t, pos, val) == t[..pos] + Between(t, pos, val) + t[pos..]
  {
    Assoc(t[..pos], ",", val);
    Assoc(t[..pos], val, ",");
  }

  lemma HasSplice(a: array<char>, t: string, pos: nat, mid: string)
    requires pos <= |t| && |t| + |mid| < a.Length && NoNul(t) && NoNul(mid)
    requires forall k | 0 <= k < pos :: a[k] == t[k]
    requires forall k | pos <= k < pos + |mid| :: a[k] == mid[k - pos]
    requires forall k | pos + |mid| <= k < |t| + |mid| :: a[k] == t[k - |mid|]
    requires a[|t| + |mid|] == NUL
    ensures Has(a, t[..pos] + mid + t[pos..])
  {
  }

  class TextBuffer {
    var json: array<char>              // json_buf_size is its length
    ghost var text: string

    ghost predicate Valid()
      reads this, json
    {
      Has(json, text)
    }

    constructor (size: nat)
      requires size > 0
      ensures Valid() && fresh(json) && json.Length == size && text == ""
    {
      json := new char[size](i => NUL);
      text := "";
    }

    method Read() returns (s: string)
      requires Valid()
      ensures s == text
    {
      var n := StrLen(json, text, 0);
      s := json[..n];
    }

    // _cfg_realloc_json with CFG_COPY.
    method Realloc(size: nat)
      requires Valid() && size > 0
      modifies this
      ensures Valid() && text == old(text) && json.Length >= size
      ensures json == old(json) || fresh(json)
    {
      if json.Length < size {
        var next := new char[size](i => NUL);
        var n := StrLen(json, text, 0);
        var i := 0;
        while i < n
          invariant 0 <= i <= n == |text| && Valid() && unchanged(this) && unchanged(json)
          invariant forall k | 0 <= k < i :: next[k] == json[k]
          invariant forall k | i <= k < size :: next[k] == NUL
        {
          next[i] := json[i];
          i := i + 1;
        }
        json := next;
      }
    }

    // kiwi_overlap_strcpy to an earlier place in the same buffer.
    method MoveDown(d: nat, s: nat)
      requires Valid() && d <= s <= |text|
      modifies this, json
      ensures Valid() && json == old(json) && text == old(text)[..d] + old(text)[s..]
    {
      var i, j := d, s;
      while json[j] != NUL
        invariant d <= i <= j <= |text| && j - i == s - d
        invariant json == old(json) && text == old(text)
        invariant forall k | 0 <= k < d || j <= k < |text| :: json[k] == text[k]
        invariant forall k | d <= k < i :: json[k] == text[k + (s - d)]
        invariant json[|text|] == NUL
        decreases |text| - j
      {
        json[i] := json[j];
        i, j := i + 1, j + 1;
      }
      json[i] := NUL;
      text := text[..d] + text[s..];
    }

    // The two pointers of _cfg_cut.
    method Start(keyStart: nat) returns (s: nat)
      requires Valid() && 2 <= keyStart <= |text| && BackOver(text, keyStart - 2) >= 0
      ensures s == BackOver(text, keyStart - 2)
    {
      s := keyStart - 2;
      while Before(json[s])
        invariant s <= keyStart - 2 && BackOver(text, s) == BackOver(text, keyStart - 2)
        decreases s
      {
        s := s - 1;
      }
    }

    method End(from: nat, valLen: nat) returns (e: nat)
      requires Valid() && from <= |text| && OverInside(text, from) + valLen <= |text|
      ensures e == OverAfter(text, OverInside(text, from) + valLen)
    {
      e := from;
      while Inside(json[e])
        invariant from <= e <= |text| && OverInside(text, e) == OverInside(text, from)
        decreases |text| - e
      {
        e := e + 1;
      }
      e := e + valLen;
      while After(json[e])
        invariant e <= |text| && OverAfter(text, e) == OverAfter(text, OverInside(text, from) + valLen)
        decreases |text| - e
      {
        e := e + 1;
      }
    }

    // _cfg_cut: what may be skipped before the key must end at something, and the value must be there.
    method Cut(keyStart: nat, keyEnd: nat, valLen: nat) returns (pos: Option<nat>)
      requires Valid() && 2 <= keyStart <= keyEnd && keyEnd + 2 + valLen <= |text|
      requires BackOver(text, keyStart - 2) >= 0 && OverInside(text, keyEnd + 2) + valLen <= |text|
      modifies this, json
      ensures Valid() && json == old(json)
      ensures match CutText(old(text), keyStart, keyEnd, valLen)
              case None => pos == None && text == old(text)
              case Some(r) => pos == Some(r.1) && text == r.0
    {
      var s := Start(keyStart);
      if json[s] != '{' && json[s] != ',' {
        return None;
      }
      s := s + 1;
      var e := End(keyEnd + 2, valLen);
      if json[s - 1] == ',' && json[e] == '}' {
        s := s - 1;
      }
      MoveDown(s, e);
      pos := Some(s);
    }

    // The tail from a position on, its NUL included, moved up by a distance: last character first.
    method MoveUp(from: nat, gap: nat)
      requires Valid() && from <= |text| && |text| + gap < json.Length
      modifies json
      ensures forall k | 0 <= k < from :: json[k] == text[k]
      ensures forall k | from + gap <= k < |text| + gap :: json[k] == text[k - gap]
      ensures json[|text| + gap] == NUL
    {
      var n := StrLen(json, text, 0);
      json[n + gap] := json[n];
      var s, d: int := n - 1, n + gap - 1;
      while s >= from
        invariant from - 1 <= s < n && d == s + gap
        invariant forall k | 0 <= k <= s :: json[k] == text[k]
        invariant forall k | 0 <= k < from :: json[k] == text[k]
        invariant forall k | d < k < n + gap :: json[k] == text[k - gap]
        invariant json[n + gap] == NUL
      {
        json[d] := json[s];
        d, s := d - 1, s - 1;
      }
    }

    method Put(pos: nat, val: string)
      requires pos + |val| <= json.Length
      modifies json
      ensures forall k | 0 <= k < json.Length && !(pos <= k < pos + |val|) :: json[k] == old(json[k])
      ensures forall k | pos <= k < pos + |val| :: json[k] == val[k - pos]
    {
      var i := 0;
      while i < |val|
        invariant i <= |val|
        invariant forall k | 0 <= k < json.Length && !(pos <= k < pos + i) :: json[k] == old(json[k])
        invariant forall k | pos <= k < pos + i :: json[k] == val[k - pos]
      {
        json[pos + i] := val[i];
        i := i + 1;
      }
    }

    // The value alone, with a comma before it, or with one behind it.
    method InsBare(pos: nat, val: string)
      requires Valid() && pos <= |text| && NoNul(val) && |text| + |val| < json.Length
      modifies this`text, json
      ensures Valid() && text == old(text)[..pos] + val + old(text)[pos..]
    {
      MoveUp(pos, |val|);
      Put(pos, val);
      HasSplice(json, text, pos, val);
      text := text[..pos] + val + text[pos..];
    }

    method InsAfterComma(pos: nat, val: string)
      requires Valid() && pos <= |text| && NoNul(val) && |text| + |val| + 1 < json.Length
      modifies this`text, json
      ensures Valid() && text == old(text)[..pos] + ("," + val) + old(text)[pos..]
    {
      MoveUp(pos, |val| + 1);
      Put(pos + 1, val);
      json[pos] := ',';
      HasSplice(json, text, pos, "," + val);
      text := text[..pos] + ("," + val) + text[pos..];
    }

    method InsBeforeComma(pos: nat, val: string)
      requires Valid() && pos <= |text| && NoNul(val) && |text| + |val| + 1 < json.Length
      modifies this`text, json
      ensures Valid() && text == old(text)[..pos] + (val + ",") + old(text)[pos..]
    {
      MoveUp(pos, |val| + 1);
      json[pos + |val|] := ',';
      Put(pos, val);
      HasSplice(json, text, pos, val + ",");
      text := text[..pos] + (val + ",") + text[pos..];
    }

    // _cfg_ins.  It writes inside the buffer if there is room for the text, the comma and the NUL.
    method Ins(pos: nat, val: string)
      requires Valid() && pos < |text| && (pos == 0 ==> text[0] != '}') && NoNul(val)
      requires |text| + |val| + 1 < json.Length
      modifies this`text, json
      ensures Valid() && text == InsText(old(text), pos, val)
    {
      InsTextIs(text, pos, val);
      hide InsText;
      if json[pos] == '}' && json[pos - 1] == '{' {
        InsBare(pos, val);
      } else if json[pos] == '}' {
        InsAfterComma(pos, val);
      } else {
        InsBeforeComma(pos, val);
      }
    }
  }
}
