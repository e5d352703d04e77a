/** Saving the labels and reading them back: dx_save_as_json and dx_reload_element of dx/dx.cpp, with
    dx_flag, at the level of the options of a label. */
module DxFile {
  import opened Modulo
  import opened Powers
  import opened Wrappers

  // The parts of flags that are saved: DX_MODE with DX_MODE_16, DX_TYPE and DX_DOW of dx/dx.h.
  datatype Flags = Flags(mode: nat, typ: nat, days: nat)

  // Frequency in units of 0.01 kHz.  No parameters is the empty string.
  datatype Label = Label(freq: int, flags: Flags, low: int, high: int, offset: int, width: int,
                         begin: nat, end: nat, params: string)

  const ALL_DAYS := 127

  predicate Fits(x: Label) {
    && x.flags.mode < 32 && x.flags.typ < 32 && x.flags.days <= ALL_DAYS
    && x.begin < 65536 && x.end < 65536
  }

  // One option of a saved label; a type is a key of its own.
  datatype Opt =
    | Type(n: nat, on: int) | Lo(num: int) | Hi(num: int) | Off(num: int) | Width(num: int)
    | Days(num: int) | Begin(num: int) | End(num: int) | Params(s: string)

  datatype Saved = Saved(freq: int, mode: nat, opts: seq<Opt>)

  // ----- Saving -----------------------------------------------------------------------------------

  // Whether a label has any of the options that make it be saved with options at all.
  predicate HasOptions(x: Label) {
    x.flags.typ != 0 || x.low != 0 || x.high != 0 || x.offset != 0 || x.params != ""
  }

  // Some days of the week, not all.
  predicate DayOpt(x: Label) {
    x.flags.days != 0 && x.flags.days != ALL_DAYS
  }

  // Whether it has any of the others.
  predicate HasOthers(x: Label) {
    x.width != 0 || DayOpt(x) || !AllDay(x)
  }

  predicate AllDay(x: Label) {
    x.begin == 0 && (x.end == 0 || x.end == 2400)
  }

  // dx_save_as_json for one label.
  method Save(x: Label) returns (r: Saved)
    ensures r == SavedLabel(x)
  {
    var opts := [];
    if HasOptions(x) {
      if x.flags.typ != 0 { opts := opts + [Type(x.flags.typ, 1)]; }
      if x.low != 0 { opts := opts + [Lo(x.low)]; }
      if x.high != 0 { opts := opts + [Hi(x.high)]; }
      if x.offset != 0 { opts := opts + [Off(x.offset)]; }
      assert opts == FirstOpts(x);
      if x.width != 0 { opts := opts + [Width(x.width)]; }
      if DayOpt(x) { opts := opts + [Days(x.flags.days)]; }
      var end := x.end;
      if x.begin == 0 && end == 2400 { end := 0; }
      if x.begin != 0 || end != 0 {
        opts := opts + [Begin(x.begin)];
        opts := opts + [End(end)];
      }
      if x.params != "" { opts := opts + [Params(x.params)]; }
    }
    r := Saved(x.freq, x.flags.mode, opts);
  }

  function Add(opts: seq<Opt>, c: bool, o: Opt): seq<Opt> {
    if c then opts + [o] else opts
  }

  function FirstOpts(x: Label): seq<Opt> {
    Add(Add(Add(Add([], x.flags.typ != 0, Type(x.flags.typ, 1)), x.low != 0, Lo(x.low)), x.high != 0, Hi(x.high)),
        x.offset != 0, Off(x.offset))
  }

  function AllOpts(x: Label): seq<Opt> {
    var a := Add(Add(FirstOpts(x), x.width != 0, Width(x.width)), DayOpt(x), Days(x.flags.days));
    Add(Add(Add(a, !AllDay(x), Begin(x.begin)), !AllDay(x), End(x.end)), x.params != "", Params(x.params))
  }

  function SavedLabel(x: Label): Saved {
    Saved(x.freq, x.flags.mode, if HasOptions(x) then AllOpts(x) else [])
  }

  // The place of an option in the line.
  function Rank(o: Opt): nat {
    match o
    case Type(_, _) => 0
    case Lo(_) => 1
    case Hi(_) => 2
    case Off(_) => 3
    case Width(_) => 4
    case Days(_) => 5
    case Begin(_) => 6
    case End(_) => 7
    case Params(_) => 8
  }

  predicate InPlace(opts: seq<Opt>, k: nat) {
    && (forall i | 0 <= i < |opts| :: Rank(opts[i]) < k)
    && (forall i, j | 0 <= i < j < |opts| :: Rank(opts[i]) < Rank(opts[j]))
  }

  // What is said of a label by one option, if it is written.
  predicate Says(x: Label, o: Opt) {
    match o
    case Type(n, on) => n == x.flags.typ && n != 0 && on == 1
    case Lo(n) => n == x.low && n != 0
    case Hi(n) => n == x.high && n != 0
    case Off(n) => n == x.offset && n != 0
    case Width(n) => n == x.width && n != 0
    case Days(n) => n == x.flags.days && n != 0 && n != 127
    case Begin(n) => n == x.begin && (n != 0 || (x.end != 0 && x.end != 2400))
    case End(n) => n == x.end && (x.begin != 0 || (n != 0 && n != 2400))
    case Params(s) => s == x.params && s != ""
  }

  lemma AddedIn(a: seq<Opt>, c: bool, o: Opt, p: Opt)
    requires InPlace(a, Rank(o))
    ensures InPlace(Add(a, c, o), Rank(o) + 1)
    ensures p in Add(a, c, o) <==> p in a || (c && p == o)
  {
  }

  lemma FirstSaved(x: Label, p: Opt)
    ensures InPlace(FirstOpts(x), 4) && (p in FirstOpts(x) <==> Rank(p) < 4 && Says(x, p))
  {
    NothingInPlace();
    hide Add, InPlace;
    var a1 := Add([], x.flags.typ != 0, Type(x.flags.typ, 1));
    var a2 := Add(a1, x.low != 0, Lo(x.low));
    var a3 := Add(a2, x.high != 0, Hi(x.high));
    AddedIn([], x.flags.typ != 0, Type(x.flags.typ, 1), p);
    AddedIn(a1, x.low != 0, Lo(x.low), p);
    AddedIn(a2, x.high != 0, Hi(x.high), p);
    AddedIn(a3, x.offset != 0, Off(x.offset), p);
  }

  lemma AllSaved(x: Label, p: Opt)
    ensures InPlace(AllOpts(x), 9) && (p in AllOpts(x) <==> Says(x, p))
  {
    FirstSaved(x, p);
    hide Add, InPlace, FirstOpts;
    var a4 := FirstOpts(x);
    var a5 := Add(a4, x.width != 0, Width(x.width));
    var a6 := Add(a5, DayOpt(x), Days(x.flags.days));
    var a7 := Add(a6, !AllDay(x), Begin(x.begin));
    var a8 := Add(a7, !AllDay(x), End(x.end));
    AddedIn(a4, x.width != 0, Width(x.width), p);
    AddedIn(a5, DayOpt(x), Days(x.flags.days), p);
    AddedIn(a6, !AllDay(x), Begin(x.begin), p);
    AddedIn(a7, !AllDay(x), End(x.end), p);
    AddedIn(a8, x.params != "", Params(x.params), p);
  }

  // Which options are written: all that say something, in this order, if the label has a type, a cut, an
  // offset or parameters, and none if not.
  lemma OptionsSaved(x: Label)
    ensures var opts := SavedLabel(x).opts;
            && InPlace(opts, 9)
            && forall o :: o in opts <==>
                 Says(x, o) && (x.flags.typ != 0 || x.low != 0 || x.high != 0 || x.offset != 0 || x.params != "")
  {
    NothingInPlace();
    hide Says, AllOpts, InPlace;
    forall o ensures InPlace(AllOpts(x), 9) && (o in AllOpts(x) <==> Says(x, o)) {
      AllSaved(x, o);
    }
    assert InPlace(SavedLabel(x).opts, 9) by {
      AllSaved(x, Lo(0));
    }
  }

  lemma NothingInPlace()
    ensures InPlace([], 0) && InPlace([], 9)
  {
  }

  // ----- Reading ----------------------------------------------------------------------------------

  function BitOr(a: nat, b: nat): nat {
    if a == 0 then b
    else if b == 0 then a
    else 2 * BitOr(a / 2, b / 2) + if a % 2 == 1 || b % 2 == 1 then 1 else 0
  }

  lemma {:induction false} BitOrIs(a: nat, b: nat, k: nat)
    ensures BitOr(a, b) / Pow2(k) % 2 == 1 <==> a / Pow2(k) % 2 == 1 || b / Pow2(k) % 2 == 1
    decreases k
  {
    hide BitOr, Pow2;
    if k == 0 {
      LastBit(a, b);
    } else {
      BitOrIs(a / 2, b / 2, k - 1);
      HalfFirst(a, k);
      HalfFirst(b, k);
      HalfFirst(BitOr(a, b), k);
      HalfOfOr(a, b);
    }
  }

  lemma LastBit(a: nat, b: nat)
    ensures Pow2(0) == 1 && (BitOr(a, b) % 2 == 1 <==> a % 2 == 1 || b % 2 == 1)
  {
  }

  lemma HalfOfOr(a: nat, b: nat)
    ensures BitOr(a, b) / 2 == BitOr(a / 2, b / 2)
  {
  }

  lemma HalfFirst(a: nat, k: nat)
    requires k > 0
    ensures a / Pow2(k) == a / 2 / Pow2(k - 1)
  {
    var m := Pow2(k - 1);
    var q, r := a / 2 / m, a / 2 % m;
    assert Pow2(k) == 2 * m;
    hide Pow2;
    DivMod(a / 2, m);
    assert a == (2 * m) * q + (2 * r + a % 2) by {
      assert a == 2 * (a / 2) + a % 2;
    }
    DivMod(a, 2 * m);
    ModUnique(a, 2 * m, q, 2 * r + a % 2);
    SameFactor(2 * m, q, a / (2 * m));
  }

  lemma SameFactor(m: nat, a: int, b: int)
    requires m > 0 && m * a == m * b
    ensures a == b
  {
    if a < b {
      MulGrows(m, a + 1, b);
    } else if b < a {
      MulGrows(m, b + 1, a);
    }
  }

  // The weekdays are kept beside the label until the end.
  datatype Partial = Partial(made: Label, days: nat)

  function Empty(freq: int, mode: nat): Partial {
    Partial(Label(freq, Flags(mode % 32, 0, 0), 0, 0, 0, 0, 0, 0, ""), ALL_DAYS)
  }

  function Apply(p: Partial, o: Opt): Partial {
    var x := p.made;
    match o
    case Type(n, on) => if on != 0 then p.(made := x.(flags := x.flags.(typ := BitOr(x.flags.typ, n % 32)))) else p
    case Lo(num) => p.(made := x.(low := num))
    case Hi(num) => p.(made := x.(high := num))
    case Off(num) => p.(made := x.(offset := num))
    case Width(num) => p.(made := x.(width := num))
    case Days(num) => p.(days := if num % 128 == 0 then ALL_DAYS else num % 128)
    case Begin(num) => p.(made := x.(begin := num % 65536))
    case End(num) => p.(made := x.(end := num % 65536))
    case Params(s) => p.(made := x.(params := s))
  }

  predicate Wraps(num: int, n: int, width: nat)
    requires width > 0
  {
    0 <= n < width && (num - n) % width == 0
  }

  // Times are read into 16 bits, types into five and weekdays into seven, none of which are all of them.
  lemma FieldsWrap(p: Partial, num: int, n: nat, on: int)
    ensures Wraps(num, Apply(p, Begin(num)).made.begin, 65536) && Wraps(num, Apply(p, End(num)).made.end, 65536)
    ensures var days := Apply(p, Days(num)).days;
            if num % 128 == 0 then days == 127 else Wraps(num, days, 128)
    ensures p.made.flags.typ == 0 ==> var typ := Apply(p, Type(n, on)).made.flags.typ;
              if on == 0 then typ == 0 else Wraps(n, typ, 32)
  {
    hide Wraps;
    RemainderWraps(num, 65536);
    RemainderWraps(num, 128);
    RemainderWraps(n, 32);
  }

  lemma RemainderWraps(num: int, width: nat)
    requires width > 0
    ensures Wraps(num, num % width, width)
  {
    DivMod(num, width);
    ModUnique(num - num % width, width, num / width, 0);
  }

  function ApplyAll(p: Partial, opts: seq<Opt>): Partial
    decreases |opts|
  {
    if opts == [] then p else ApplyAll(Apply(p, opts[0]), opts[1..])
  }

  function Finish(p: Partial): Label {
    var x := p.made.(flags := p.made.flags.(days := BitOr(p.made.flags.days, p.days)));
    if x.begin == 0 && x.end == 0 then x.(end := 2400) else x
  }

  function Read(s: Saved): Label {
    Finish(ApplyAll(Empty(s.freq, s.mode), s.opts))
  }

  // dx_reload_element into a slot that is all zero: the frequency must not go down.
  method Reload(s: Saved, last: int) returns (r: Option<Label>, last': int)
    ensures if s.freq < last then r == None && last' == 0 else r == Some(Read(s)) && last' == s.freq
  {
    if s.freq < last {
      return None, 0;
    }
    last' := s.freq;
    var p := Empty(s.freq, s.mode);
    var i := 0;
    while i < |s.opts|
      invariant i <= |s.opts|
      invariant ApplyAll(p, s.opts[i..]) == ApplyAll(Empty(s.freq, s.mode), s.opts) && last' == s.freq
    {
      assert s.opts[i..][1..] == s.opts[i + 1..];
      p := Apply(p, s.opts[i]);
      i := i + 1;
    }
    r := Some(Finish(p));
  }

  // ----- What comes back --------------------------------------------------------------------------

  // No weekdays is all of them, and no times is the whole day.
  function Normal(x: Label): Label {
    x.(flags := x.flags.(days := if x.flags.days == 0 then ALL_DAYS else x.flags.days),
       end := if x.begin == 0 && x.end == 0 then 2400 else x.end)
  }

  lemma {:induction false} ApplyAdd(p: Partial, a: seq<Opt>, c: bool, o: Opt)
    ensures ApplyAll(p, Add(a, c, o)) == if c then Apply(ApplyAll(p, a), o) else ApplyAll(p, a)
    decreases |a|
  {
    if c {
      if a == [] {
        assert [] + [o] == [o] && [o][1..] == [];
      } else {
        assert (a + [o])[1..] == a[1..] + [o];
        ApplyAdd(Apply(p, a[0]), a[1..], c, o);
      }
    }
  }

  // After the first options, and after all of them.
  lemma FirstReadBack(x: Label)
    requires Fits(x)
    ensures ApplyAll(Empty(x.freq, x.flags.mode), FirstOpts(x)) ==
            Partial(Label(x.freq, Flags(x.flags.mode, x.flags.typ, 0), x.low, x.high, x.offset, 0, 0, 0, ""), ALL_DAYS)
  {
    var p := Empty(x.freq, x.flags.mode);
    var a1 := Add([], x.flags.typ != 0, Type(x.flags.typ, 1));
    var a2 := Add(a1, x.low != 0, Lo(x.low));
    var a3 := Add(a2, x.high != 0, Hi(x.high));
    hide Add, ApplyAll;
    assert ApplyAll(p, []) == p by { NothingApplied(p); }
    ApplyAdd(p, [], x.flags.typ != 0, Type(x.flags.typ, 1));
    ApplyAdd(p, a1, x.low != 0, Lo(x.low));
    ApplyAdd(p, a2, x.high != 0, Hi(x.high));
    ApplyAdd(p, a3, x.offset != 0, Off(x.offset));
  }

  lemma NothingApplied(p: Partial)
    ensures ApplyAll(p, []) == p
  {
  }

  lemma SecondReadBack(x: Label, p: Partial, q: Partial)
    requires Fits(x) && ApplyAll(p, FirstOpts(x)) == q && q.made.width == 0 && q.days == ALL_DAYS
    ensures ApplyAll(p, Add(Add(FirstOpts(x), x.width != 0, Width(x.width)), DayOpt(x), Days(x.flags.days)))
         == Partial(q.made.(width := x.width), if DayOpt(x) then x.flags.days else ALL_DAYS)
  {
    hide Add, ApplyAll, FirstOpts;
    ApplyAdd(p, FirstOpts(x), x.width != 0, Width(x.width));
    ApplyAdd(p, Add(FirstOpts(x), x.width != 0, Width(x.width)), DayOpt(x), Days(x.flags.days));
  }

  lemma LastReadBack(x: Label, p: Partial, a: seq<Opt>, q: Partial)
    requires Fits(x) && ApplyAll(p, a) == q && q.made.begin == 0 && q.made.end == 0 && q.made.params == ""
    ensures ApplyAll(p, Add(Add(Add(a, !AllDay(x), Begin(x.begin)), !AllDay(x), End(x.end)), x.params != "",
            Params(x.params)))
         == Partial(q.made.(begin := if AllDay(x) then 0 else x.begin, end := if AllDay(x) then 0 else x.end,
           params := x.params), q.days)
  {
    var b := Add(a, !AllDay(x), Begin(x.begin));
    hide Add, ApplyAll;
    ApplyAdd(p, a, !AllDay(x), Begin(x.begin));
    ApplyAdd(p, b, !AllDay(x), End(x.end));
    ApplyAdd(p, Add(b, !AllDay(x), End(x.end)), x.params != "", Params(x.params));
  }

  // A saved label with options comes back whole.
  lemma OptionsReadBack(x: Label)
    requires Fits(x) && HasOptions(x)
    ensures Read(SavedLabel(x)) == Normal(x)
  {
    var p := Empty(x.freq, x.flags.mode);
    FirstReadBack(x);
    hide Add, ApplyAll, FirstOpts;
    SecondReadBack(x, p, ApplyAll(p, FirstOpts(x)));
    var a := Add(Add(FirstOpts(x), x.width != 0, Width(x.width)), DayOpt(x), Days(x.flags.days));
    LastReadBack(x, p, a, ApplyAll(p, a));
  }

  // A label survives saving and reading, up to the normal form of days and times, if and only if it has
  // a type, a cut, an offset or parameters, or has no bandwidth, days or times to lose.
  lemma RoundTripIff(x: Label)
    requires Fits(x)
    ensures Read(SavedLabel(x)) == Normal(x)
            <==> HasOptions(x) || !HasOthers(x)
  {
    if HasOptions(x) {
      OptionsReadBack(x);
    } else {
      NothingApplied(Empty(x.freq, x.flags.mode));
    }
  }

  // A label with just a bandwidth of 50.
  lemma BandwidthIsLost()
    ensures var x := Label(700000, Flags(0, 0, 0), 0, 0, 0, 50, 0, 0, "");
            SavedLabel(x) == Saved(700000, 0, []) && Read(SavedLabel(x)) == Normal(x.(width := 0))
  {
    NothingApplied(Empty(700000, 0));
  }

  // ----- Lists ------------------------------------------------------------------------------------

  predicate Ordered(xs: seq<Label>) {
    forall i, j | 0 <= i < j < |xs| :: xs[i].freq <= xs[j].freq
  }

  // A sorted list is saved and read: every label is there, in its place, whole if it has options or
  // needs none.
  method SaveAndReload(xs: seq<Label>) returns (ys: seq<Label>)
    requires Ordered(xs) && forall i | 0 <= i < |xs| :: xs[i].freq >= 0 && Fits(xs[i])
    ensures |ys| == |xs|
    ensures forall i | 0 <= i < |xs| :: ys[i] == Normal(xs[i]) <==> HasOptions(xs[i]) || !HasOthers(xs[i])
    ensures forall i | 0 <= i < |xs| :: ys[i].freq == xs[i].freq && ys[i].flags.mode == xs[i].flags.mode
  {
    hide SavedLabel, Read, Normal, Fits, HasOptions, HasOthers;
    var file := [];
    var i := 0;
    while i < |xs|
      invariant i == |file| <= |xs| && forall k | 0 <= k < i :: file[k] == SavedLabel(xs[k])
    {
      var s := Save(xs[i]);
      file := file + [s];
      i := i + 1;
    }
    ys := [];
    var last := 0;
    i := 0;
    while i < |file|
      invariant |file| == |xs| && i == |ys| <= |xs|
      invariant forall k | i <= k < |xs| :: last <= xs[k].freq
      invariant forall k | 0 <= k < i :: ys[k] == Read(SavedLabel(xs[k]))
    {
      FreqIsSaved(xs[i]);
      var y;
      y, last := Reload(file[i], last);
      ys := ys + [y.value];
      i := i + 1;
    }
    forall k | 0 <= k < |xs|
      ensures ys[k] == Normal(xs[k]) <==> HasOptions(xs[k]) || !HasOthers(xs[k])
      ensures ys[k].freq == xs[k].freq && ys[k].flags.mode == xs[k].flags.mode
    {
      RoundTripIff(xs[k]);
      FreqIsRead(xs[k]);
    }
  }

  lemma FreqIsSaved(x: Label)
    ensures SavedLabel(x).freq == x.freq && SavedLabel(x).mode == x.flags.mode
  {
  }

  lemma {:induction false} ApplyKeepsFreq(p: Partial, opts: seq<Opt>)
    ensures var q := ApplyAll(p, opts).made; q.freq == p.made.freq && q.flags.mode == p.made.flags.mode
    decreases |opts|
  {
    if opts != [] {
      ApplyKeepsFreq(Apply(p, opts[0]), opts[1..]);
    }
  }

  lemma FreqIsRead(x: Label)
    requires Fits(x)
    ensures var y := Read(SavedLabel(x)); y.freq == x.freq && y.flags.mode == x.flags.mode
  {
    FreqIsSaved(x);
    ApplyKeepsFreq(Empty(x.freq, x.flags.mode), SavedLabel(x).opts);
  }
}
