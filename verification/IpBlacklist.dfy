/** The internal table of blocked addresses (net/ip_blacklist.cpp): rules are put in front, and the first
    one that matches decides. */
module IpBlacklist {
  import opened Wrappers
  import opened Powers
  import opened Modulo

  const ADDRESSES := 0x1_0000_0000
  const CAPACITY := 512              // N_IP_BLACKLIST

  // ----- Masks ------------------------------------------------------------------------------------

  // The operator & on numbers.
  function And(a: nat, b: nat): nat {
    if a == 0 || b == 0 then 0 else 2 * And(a / 2, b / 2) + (if a % 2 == 1 && b % 2 == 1 then 1 else 0)
  }

  lemma {:induction false} Pow2Grows(k: nat, n: nat)
    requires k <= n
    ensures Pow2(k) <= Pow2(n)
  {
    if k < n {
      Pow2Grows(k, n - 1);
    }
  }

  lemma AllAddresses()
    ensures Pow2(32) == ADDRESSES
  {
    assert Pow2(8) == 256;
    assert Pow2(16) == 65536;
    assert Pow2(24) == 16777216;
  }

  // ~((1 << (32 - cidr)) - 1) in 32 bits.
  function Mask(cidr: nat): nat
    requires 1 <= cidr <= 32
  {
    Pow2Grows(32 - cidr, 32);
    AllAddresses();
    ADDRESSES - 1 - (Pow2(32 - cidr) - 1)
  }

  lemma ModTwice(a: nat, m: nat)
    requires m > 0
    ensures a % (2 * m) == 2 * ((a / 2) % m) + a % 2
  {
    var q, r := (a / 2) / m, (a / 2) % m;
    assert a == (2 * m) * q + (2 * r + a % 2) by {
      assert a / 2 == m * q + r;
    }
    ModUnique(a, 2 * m, q, 2 * r + a % 2);
  }

  lemma AndOfEven(a: nat, b: nat)
    ensures And(a, 2 * b) == 2 * And(a / 2, b)
  {
  }

  lemma AndOfOdd(a: nat, b: nat)
    ensures And(a, 2 * b + 1) == 2 * And(a / 2, b) + a % 2
  {
  }

  lemma Pow2Step(k: nat)
    requires k > 0
    ensures Pow2(k) == 2 * Pow2(k - 1)
  {
  }

  lemma {:induction false} AndAll(a: nat, n: nat)
    requires a < Pow2(n)
    ensures And(a, Pow2(n) - 1) == a
  {
    if n > 0 {
      Pow2Step(n);
      hide And, Pow2;
      AndAll(a / 2, n - 1);
      AndOfOdd(a, Pow2(n - 1) - 1);
    }
  }

  // The mask clears the last k bits.
  lemma {:induction false} AndMask(a: nat, k: nat, n: nat)
    requires k <= n && a < Pow2(n)
    ensures Pow2(k) <= Pow2(n) && And(a, Pow2(n) - Pow2(k)) == a - a % Pow2(k)
  {
    Pow2Grows(k, n);
    if k == 0 {
      AndAll(a, n);
    } else {
      Pow2Step(n);
      Pow2Step(k);
      hide And, Pow2;
      AndMask(a / 2, k - 1, n - 1);
      AndOfEven(a, Pow2(n - 1) - Pow2(k - 1));
      ModTwice(a, Pow2(k - 1));
    }
  }

  // ----- Rules ------------------------------------------------------------------------------------

  // An entry as read: '+' in front lets through; without a prefix length it is one address.
  datatype Spec = Spec(white: bool, ip: Option<nat>, cidr: Option<nat>)

  datatype Rule = Rule(ip: nat, cidr: nat, mask: nat, white: bool)

  function Length(s: Spec): nat {
    if s.cidr.Some? then s.cidr.value else 32
  }

  predicate Readable(s: Spec) {
    s.ip.Some? && s.ip.value < ADDRESSES && 1 <= Length(s) <= 32
  }

  function RuleOf(s: Spec): Rule
    requires Readable(s)
  {
    Rule(And(s.ip.value, Mask(Length(s))), Length(s), Mask(Length(s)), s.white)
  }

  predicate Matches(r: Rule, ip: nat) {
    And(ip, r.mask) == r.ip
  }

  // The addresses an entry stands for: 2^(32 - cidr) of them from its first one on.
  function First(s: Spec): int
    requires Readable(s)
  {
    s.ip.value - s.ip.value % Pow2(32 - Length(s))
  }

  predicate InRange(s: Spec, ip: nat)
    requires Readable(s)
  {
    First(s) <= ip < First(s) + Pow2(32 - Length(s))
  }

  lemma ModBelow(a: nat, m: nat)
    requires m > 0
    ensures 0 <= a % m <= a && a % m < m && (a - a % m) % m == 0
  {
    var q := a / m;
    assert a == m * q + a % m;
    ModUnique(m * q, m, q, 0);
  }

  // Rounding down gives the same multiple exactly for the numbers in its stretch.
  lemma SameMultiple(x: nat, b: nat, m: nat)
    requires m > 0 && b % m == 0
    ensures x - x % m == b <==> b <= x < b + m
  {
    var q := b / m;
    assert b == m * q;
    ModBelow(x, m);
    if b <= x < b + m {
      ModUnique(x, m, q, x - b);
    }
  }

  lemma AndMask32(a: nat, cidr: nat)
    requires a < ADDRESSES && 1 <= cidr <= 32
    ensures And(a, Mask(cidr)) == a - a % Pow2(32 - cidr)
  {
    AllAddresses();
    AndMask(a, 32 - cidr, 32);
    hide And, Pow2;
  }

  // The mask test is membership in the range.
  lemma MaskIsRange(s: Spec, ip: nat)
    requires Readable(s) && ip < ADDRESSES
    ensures Matches(RuleOf(s), ip) <==> InRange(s, ip)
  {
    var m := Pow2(32 - Length(s));
    hide And, Pow2, Mask;
    AndMask32(s.ip.value, Length(s));
    AndMask32(ip, Length(s));
    ModBelow(s.ip.value, m);
    SameMultiple(ip, First(s), m);
  }

  // The same without a mask: the first `cidr` bits are those of the entry.
  predicate SharesFront(a: nat, b: nat, cidr: nat)
    requires cidr <= 32
  {
    a / Pow2(32 - cidr) == b / Pow2(32 - cidr)
  }

  lemma SameQuotient(x: nat, a: nat, m: nat)
    requires m > 0
    ensures a - a % m <= x < a - a % m + m <==> x / m == a / m
  {
    DivMod(a, m);
    DivMod(x, m);
    ModBelow(a, m);
    SameMultiple(x, a - a % m, m);
    if x / m != a / m {
      MulGrows(m, if x < a then x / m + 1 else a / m + 1, if x < a then a / m else x / m);
    }
  }

  // An entry without a length stands for its own address, one with a length for all that share so
  // many bits with it.
  lemma EntryStandsFor(s: Spec, ip: nat)
    requires Readable(s) && ip < ADDRESSES
    ensures s.cidr == None ==> (Matches(RuleOf(s), ip) <==> ip == s.ip.value)
    ensures s.cidr.Some? ==>
              && 1 <= s.cidr.value <= 32
              && (Matches(RuleOf(s), ip) <==> SharesFront(ip, s.ip.value, s.cidr.value))
  {
    MaskIsRange(s, ip);
    assert Pow2(0) == 1;
    hide And, Pow2, Mask, Matches, RuleOf;
    if s.cidr.Some? {
      SameQuotient(ip, s.ip.value, Pow2(32 - s.cidr.value));
    }
  }

  // ----- The table --------------------------------------------------------------------------------

  // An entry is taken unless it would contain the address of kiwisdr.com, or there is no room.
  predicate Taken(s: Spec, kiwi: nat, n: nat) {
    Readable(s) && !Matches(RuleOf(s), kiwi) && n < CAPACITY
  }

  // In the terms of the entry.
  predicate Acceptable(s: Spec, kiwi: nat, n: nat) {
    && s.ip.Some? && s.ip.value < ADDRESSES && n < 512
    && match s.cidr
       case None => kiwi != s.ip.value
       case Some(cidr) => 1 <= cidr <= 32 && !SharesFront(kiwi, s.ip.value, cidr)
  }

  lemma TakenIff(s: Spec, kiwi: nat, n: nat)
    requires kiwi < ADDRESSES
    ensures Taken(s, kiwi, n) <==> Acceptable(s, kiwi, n)
  {
    hide Matches, RuleOf, SharesFront;
    if Readable(s) {
      EntryStandsFor(s, kiwi);
    }
  }

  function Rules(adds: seq<Spec>, kiwi: nat): (r: seq<Rule>)
    ensures |r| <= CAPACITY
  {
    if adds == [] then []
    else
      var n := |adds| - 1;
      var rest := Rules(adds[..n], kiwi);
      if Taken(adds[n], kiwi, |rest|) then [RuleOf(adds[n])] + rest else rest
  }

  // check_ip_blacklist on the rules.
  function Verdict(rs: seq<Rule>, ip: nat): bool {
    rs != [] && if Matches(rs[0], ip) then !rs[0].white else Verdict(rs[1..], ip)
  }

  // Entry i was taken and stands for the address.
  predicate Decides(adds: seq<Spec>, kiwi: nat, i: nat, ip: nat)
    requires i < |adds|
  {
    Taken(adds[i], kiwi, |Rules(adds[..i], kiwi)|) && InRange(adds[i], ip)
  }

  // The most recent entry that was taken and that the address is in the range of blocks it.
  predicate Blocked(adds: seq<Spec>, kiwi: nat, ip: nat) {
    exists i | 0 <= i < |adds| :: Latest(adds, kiwi, i, ip) && !adds[i].white
  }

  predicate Latest(adds: seq<Spec>, kiwi: nat, i: nat, ip: nat)
    requires i < |adds|
  {
    Decides(adds, kiwi, i, ip) && forall j | i < j < |adds| :: !Decides(adds, kiwi, j, ip)
  }

  lemma DecidesBefore(adds: seq<Spec>, kiwi: nat, n: nat, ip: nat)
    requires n <= |adds|
    ensures forall i | 0 <= i < n :: Decides(adds, kiwi, i, ip) <==> Decides(adds[..n], kiwi, i, ip)
  {
    forall i | 0 <= i < n ensures Decides(adds, kiwi, i, ip) <==> Decides(adds[..n], kiwi, i, ip) {
      assert adds[..n][..i] == adds[..i];
    }
  }

  lemma LastDecides(adds: seq<Spec>, kiwi: nat, ip: nat)
    requires adds != [] && Decides(adds, kiwi, |adds| - 1, ip)
    ensures Blocked(adds, kiwi, ip) <==> !adds[|adds| - 1].white
  {
    hide Decides;
  }

  lemma LatestBefore(adds: seq<Spec>, kiwi: nat, i: nat, ip: nat)
    requires i < |adds| - 1 && !Decides(adds, kiwi, |adds| - 1, ip)
    ensures Latest(adds, kiwi, i, ip) <==> Latest(adds[..|adds| - 1], kiwi, i, ip)
  {
    DecidesBefore(adds, kiwi, |adds| - 1, ip);
    hide Decides;
  }

  lemma LastDoesNot(adds: seq<Spec>, kiwi: nat, ip: nat)
    requires adds != [] && !Decides(adds, kiwi, |adds| - 1, ip)
    ensures Blocked(adds, kiwi, ip) <==> Blocked(adds[..|adds| - 1], kiwi, ip)
  {
    var n := |adds| - 1;
    forall i | 0 <= i < n ensures Latest(adds, kiwi, i, ip) <==> Latest(adds[..n], kiwi, i, ip) {
      LatestBefore(adds, kiwi, i, ip);
    }
    assert !Latest(adds, kiwi, n, ip);
    hide Latest, Decides;
    assert forall i | 0 <= i < n :: adds[..n][i] == adds[i];
  }

  lemma BlockedStep(adds: seq<Spec>, kiwi: nat, ip: nat)
    requires adds != []
    ensures var n := |adds| - 1;
            Blocked(adds, kiwi, ip) <==> if Decides(adds, kiwi, n, ip) then !adds[n].white else Blocked(adds[..n],
              kiwi, ip)
  {
    hide Decides, Blocked;
    if Decides(adds, kiwi, |adds| - 1, ip) {
      LastDecides(adds, kiwi, ip);
    } else {
      LastDoesNot(adds, kiwi, ip);
    }
  }

  // After any entries the table's verdict is that of the most recent entry concerned.
  lemma {:induction false} LatestDecides(adds: seq<Spec>, kiwi: nat, ip: nat)
    requires ip < ADDRESSES && kiwi < ADDRESSES
    ensures Verdict(Rules(adds, kiwi), ip) == Blocked(adds, kiwi, ip)
    decreases |adds|
  {
    if adds != [] {
      var n := |adds| - 1;
      var rest := Rules(adds[..n], kiwi);
      LatestDecides(adds[..n], kiwi, ip);
      BlockedStep(adds, kiwi, ip);
      if Taken(adds[n], kiwi, |rest|) {
        MaskIsRange(adds[n], ip);
        assert ([RuleOf(adds[n])] + rest)[1..] == rest;
      }
      hide InRange, Matches, Blocked;
    }
  }

  // kiwisdr.com is never blocked, whatever the entries.
  lemma {:induction false} KiwiIsFree(adds: seq<Spec>, kiwi: nat)
    requires kiwi < ADDRESSES
    ensures !Verdict(Rules(adds, kiwi), kiwi)
    ensures forall i | 0 <= i < |Rules(adds, kiwi)| :: !Matches(Rules(adds, kiwi)[i], kiwi)
    decreases |adds|
  {
    if adds != [] {
      var n := |adds| - 1;
      var rest := Rules(adds[..n], kiwi);
      KiwiIsFree(adds[..n], kiwi);
      hide Matches;
      if Taken(adds[n], kiwi, |rest|) {
        assert ([RuleOf(adds[n])] + rest)[1..] == rest;
      }
    }
  }

  // ----- The code ---------------------------------------------------------------------------------

  datatype Slot = Slot(rule: Rule, dropped: int, lastDropped: nat)

  class Net {
    const kiwi: nat                    // the first address of kiwisdr.com
    const table: array<Slot>
    var len: nat
    var inUse: bool
    ghost var adds: seq<Spec>          // the entries so far

    ghost predicate Valid()
      reads this, table
    {
      && table.Length == CAPACITY && kiwi < ADDRESSES
      && len == |Rules(adds, kiwi)|
      && forall i | 0 <= i < len :: table[i].rule == Rules(adds, kiwi)[i]
    }

    constructor (kiwi: nat)
      requires kiwi < ADDRESSES
      ensures Valid() && fresh(table) && adds == [] && this.kiwi == kiwi
    {
      this.kiwi := kiwi;
      table := new Slot[CAPACITY](i => Slot(Rule(0, 32, 0, false), 0, 0));
      len := 0;
      inUse := false;
      adds := [];
    }

    // memmove by one place.
    method MoveUp()
      requires len < table.Length
      modifies table
      ensures forall i | 0 <= i < len :: table[i + 1] == old(table[i])
    {
      var i := len;
      while i > 0
        invariant 0 <= i <= len
        invariant forall k | i <= k < len :: table[k + 1] == old(table[k])
        invariant forall k | 0 <= k < i :: table[k] == old(table[k])
      {
        table[i] := table[i - 1];
        i := i - 1;
      }
    }

    // ip_blacklist_add
    method Add(s: Spec) returns (ok: bool)
      requires Valid()
      modifies this`len, this`adds, table
      ensures Valid() && adds == old(adds) + [s]
      ensures ok == Taken(s, kiwi, |Rules(old(adds), kiwi)|) == Acceptable(s, kiwi, old(len))
      ensures len == old(len) + if ok then 1 else 0
    {
      TakenIff(s, kiwi, len);
      ghost var rs := Rules(adds, kiwi);
      assert (adds + [s])[..|adds|] == adds;
      hide Matches, RuleOf, SharesFront, Acceptable;
      adds := adds + [s];
      if s.ip.None? || s.ip.value >= ADDRESSES || Length(s) < 1 || Length(s) > 32 {
        return false;
      }
      var rule := RuleOf(s);
      if Matches(rule, kiwi) || len >= CAPACITY {
        return false;
      }
      MoveUp();
      table[0] := Slot(rule, 0, 0);
      len := len + 1;
      ok := true;
    }

    // check_ip_blacklist: what is counted is the rule that decided.
    method Check(remote: Option<nat>) returns (blocked: bool)
      requires Valid() && (remote.Some? ==> remote.value < ADDRESSES)
      modifies this`inUse, table
      ensures Valid() && blocked == (remote.Some? && Blocked(adds, kiwi, remote.value))
      ensures forall i | 0 <= i < len ::
                table[i].dropped == old(table[i].dropped)
                + if remote.Some? && FirstMatch(Rules(adds, kiwi), remote.value) == i then 1 else 0
      ensures forall i | 0 <= i < len ::
                table[i].lastDropped == if blocked && FirstMatch(Rules(adds, kiwi), remote.value) == i then remote.value
                                        else old(table[i].lastDropped)
      ensures inUse == (old(inUse) || (remote.Some? && FirstMatch(Rules(adds, kiwi), remote.value) < len))
    {
      if remote.None? {
        return false;
      }
      var ip := remote.value;
      ghost var rs := Rules(adds, kiwi);
      LatestDecides(adds, kiwi, ip);
      hide Rules, Matches, Blocked;
      var i := 0;
      while i < len
        invariant 0 <= i <= len && unchanged(table) && unchanged(this)
        invariant Verdict(rs, ip) == Verdict(rs[i..], ip)
        invariant FirstMatch(rs, ip) == i + FirstMatch(rs[i..], ip)
      {
        assert rs[i..][1..] == rs[i + 1..] && rs[i..][0] == rs[i];
        if Matches(table[i].rule, ip) {
          inUse := true;
          table[i] := table[i].(dropped := table[i].dropped + 1);
          if table[i].rule.white {
            return false;
          }
          table[i] := table[i].(lastDropped := ip);
          return true;
        }
        i := i + 1;
      }
      blocked := false;
    }
  }

  // The place of the first rule that matches, or the number of rules.
  function FirstMatch(rs: seq<Rule>, ip: nat): (i: nat)
    ensures i <= |rs| && (forall k | 0 <= k < i :: !Matches(rs[k], ip)) && (i < |rs| ==> Matches(rs[i], ip))
  {
    if rs == [] || Matches(rs[0], ip) then 0 else 1 + FirstMatch(rs[1..], ip)
  }
}
