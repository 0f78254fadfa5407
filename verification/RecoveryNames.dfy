/** Names of recovery receipts: the first free `recovery-<time>[-<n>].json` (kigumi/_runstate.py). */
module RecoveryNames {
  import opened Wrappers

  /** Decimal digits of a natural number, as `str(int)` writes them. */
  function Decimal(n: nat): (s: string)
    ensures |s| >= 1
  {
    var digit := [('0' as int + n % 10) as char];
    if n < 10 then digit else Decimal(n / 10) + digit
  }

  function Value(s: string): int {
    if s == [] then 0 else 10 * Value(s[..|s| - 1]) + (s[|s| - 1] as int - '0' as int)
  }

  /** The digits determine the number. */
  lemma {:induction false} DecimalRoundTrip(n: nat)
    ensures Value(Decimal(n)) == n
  {
    var s := Decimal(n);
    if n < 10 {
      assert s[..0] == [];
    } else {
      DecimalRoundTrip(n / 10);
      assert s[..|s| - 1] == Decimal(n / 10);
    }
  }

  function Suffix(n: nat): string {
    if n == 0 then "" else "-" + Decimal(n)
  }

  function Name(time: string, n: nat): string {
    "recovery-" + time + Suffix(n) + ".json"
  }

  /** The suffix can be read back from a name, so different suffixes give different names. */
  function SuffixOf(time: string, name: string): int
    requires |name| >= |"recovery-" + time|
  {
    var body := name[|"recovery-" + time|..];
    if |body| <= 5 then 0 else Value(body[1..|body| - 5])
  }

  lemma NameRoundTrip(time: string, n: nat)
    ensures |Name(time, n)| >= |"recovery-" + time| && SuffixOf(time, Name(time, n)) == n
  {
    var stem := "recovery-" + time;
    assert Name(time, n) == stem + (Suffix(n) + ".json");
    var body := Name(time, n)[|stem|..];
    assert body == Suffix(n) + ".json";
    if n > 0 {
      assert body[1..|body| - 5] == Decimal(n);
      DecimalRoundTrip(n);
    }
  }

  /** The names with a suffix below `n`. */
  function Tried(time: string, n: nat): set<string> {
    if n == 0 then {} else Tried(time, n - 1) + {Name(time, n - 1)}
  }

  lemma {:induction false} UntriedAbove(time: string, n: nat, i: nat)
    requires i >= n
    ensures Name(time, i) !in Tried(time, n)
  {
    if n > 0 {
      UntriedAbove(time, n - 1, i);
      NameRoundTrip(time, n - 1);
      NameRoundTrip(time, i);
    }
  }

  predicate UsableTime(time: Option<string>) {
    time.Some? && time.value != "" && '/' !in time.value && '\\' !in time.value
  }

  lemma OneLess(names: set<string>, time: string, n: nat)
    requires Name(time, n) in names
    ensures |names - Tried(time, n + 1)| < |names - Tried(time, n)|
  {
    UntriedAbove(time, n, n);
    var left := names - Tried(time, n);
    assert names - Tried(time, n + 1) == left - {Name(time, n)};
  }

  /** The search ends: each further suffix uses up one of the finitely many existing names. */
  function FreeFrom(names: set<string>, time: string, n: nat): (r: nat)
    ensures r >= n && Name(time, r) !in names
    ensures forall j :: n <= j < r ==> Name(time, j) in names
    decreases |names - Tried(time, n)|
  {
    if Name(time, n) !in names then n
    else
      OneLess(names, time, n);
      FreeFrom(names, time, n + 1)
  }

  function FreeName(names: set<string>, time: string): (r: string)
    ensures r !in names
  {
    Name(time, FreeFrom(names, time, 0))
  }

  /** The exclusive-creation loop of `_write_recovery_receipt_locked`. */
  method FindFreeName(names: set<string>, time: string) returns (name: string)
    ensures name !in names
    ensures name == FreeName(names, time)
  {
    var suffix := 0;
    name := Name(time, suffix);
    while name in names
      invariant name == Name(time, suffix)
      invariant FreeFrom(names, time, suffix) == FreeFrom(names, time, 0)
      decreases |names - Tried(time, suffix)|
    {
      OneLess(names, time, suffix);
      suffix := suffix + 1;
      name := Name(time, suffix);
    }
  }

  /** The name is the first of `recovery-<time>.json`, `recovery-<time>-1.json`, ... that is not taken. */
  lemma FreeNameIsFirst(names: set<string>, time: string)
    ensures var stem := "recovery-" + time;
            || (FreeName(names, time) == stem + ".json" && FreeName(names, time) !in names)
            || (stem + ".json" in names
                && exists n: nat ::
                  && n > 0 && FreeName(names, time) == Numbered(stem, n) && Numbered(stem, n) !in names
                  && forall j: nat :: 0 < j < n ==> Numbered(stem, j) in names)
  {
    var stem := "recovery-" + time;
    var r := FreeFrom(names, time, 0);
    assert Name(time, 0) == stem + ".json";
    forall j: nat | j > 0
      ensures Name(time, j) == Numbered(stem, j)
    {
    }
    if r > 0 {
      assert Name(time, 0) in names;
      assert FreeName(names, time) == Numbered(stem, r);
      forall j: nat | 0 < j < r
        ensures Numbered(stem, j) in names
      {
        assert Name(time, j) in names;
      }
    }
  }

  function Numbered(stem: string, n: nat): string {
    stem + "-" + Decimal(n) + ".json"
  }
}
