/** Branch numbers. A branch row is keyed by a decimal string, the driver works with indices, and
    it regenerates the string from the index to find the row again, so the two forms must be
    inverse to each other on everything the registration guard lets in. */
module BranchIds {
  import opened Types

  // ---------- decimal digits ----------

  predicate IsDigit(c: char) {
    '0' <= c <= '9'
  }

  predicate AllDigits(s: string) {
    forall i :: 0 <= i < |s| ==> IsDigit(s[i])
  }

  function DigitChar(d: nat): (c: char)
    requires d < 10
    ensures IsDigit(c) && DigitValue(c) == d
  {
    '0' + d as char
  }

  function DigitValue(c: char): (d: nat)
    requires IsDigit(c)
    ensures d < 10
  {
    (c - '0') as nat
  }

  /** The shortest decimal form of a number. */
  function Decimal(n: nat): (s: string)
    ensures |s| >= 1 && AllDigits(s)
  {
    if n < 10 then [DigitChar(n)] else Decimal(n / 10) + [DigitChar(n % 10)]
  }

  /** The number a string of digits denotes; leading zeros are allowed. */
  function Value(s: string): nat
    requires AllDigits(s)
  {
    if s == [] then 0 else 10 * Value(s[..|s| - 1]) + DigitValue(s[|s| - 1])
  }

  lemma {:induction false} ValueOfDecimal(n: nat)
    ensures Value(Decimal(n)) == n
  {
    if n < 10 {
      assert Decimal(n)[..0] == [];
      assert Value(Decimal(n)[..0]) == 0;
    } else {
      var s := Decimal(n);
      assert s[..|s| - 1] == Decimal(n / 10);
      ValueOfDecimal(n / 10);
    }
  }


  /** `format!("{:02}", n)`. */
  function Pad2(n: nat): (s: string)
    ensures |s| >= 2 && AllDigits(s)
  {
    if n < 10 then "0" + Decimal(n) else Decimal(n)
  }

  lemma {:induction false} LeadingZero(s: string)
    requires AllDigits(s)
    ensures Value("0" + s) == Value(s)
  {
    if s == [] {
      assert "0" + s == "0";
      assert "0"[..0] == [];
      assert Value("0"[..0]) == 0;
    } else {
      var t := "0" + s;
      assert t[..|t| - 1] == "0" + s[..|s| - 1];
      LeadingZero(s[..|s| - 1]);
    }
  }

  /** Padding never changes the number, so it can be read back. */
  lemma {:induction false} ValueOfPad2(n: nat)
    ensures Value(Pad2(n)) == n
  {
    ValueOfDecimal(n);
    if n < 10 {
      LeadingZero(Decimal(n));
    }
  }

  lemma Pad2Injective(m: nat, n: nat)
    requires Pad2(m) == Pad2(n)
    ensures m == n
  {
    ValueOfPad2(m);
    ValueOfPad2(n);
  }

  // ---------- branch_id and index_of ----------

  const MAX_BRANCH_INDEX: nat := 9999

  const USIZE_MAX: nat := 0xFFFF_FFFF_FFFF_FFFF

  /** The branch number of a step: the first one is "01". */
  function BranchId(index: nat): (s: string)
    ensures |s| >= 2 && AllDigits(s)
  {
    Pad2(index + 1)
  }

  /** Rust's `str::parse::<usize>`: an optional plus sign, then at least one digit, no overflow. */
  function ParseUsize(s: string): Option<nat> {
    var digits := if |s| > 0 && s[0] == '+' then s[1..] else s;
    if |digits| == 0 || !AllDigits(digits) || Value(digits) > USIZE_MAX then None
    else Some(Value(digits))
  }

  function IndexOf(branchId: string): (r: Option<nat>)
    ensures r.Some? ==> r.value <= MAX_BRANCH_INDEX
  {
    match ParseUsize(branchId)
    case None => None
    case Some(v) => if 1 <= v && v - 1 <= MAX_BRANCH_INDEX then Some(v - 1) else None
  }

  /** The guard of branch registration: the driver can reproduce exactly this string. */
  predicate IsCanonicalBranchId(s: string) {
    match IndexOf(s)
    case None => false
    case Some(i) => BranchId(i) == s
  }

  /** Parsing inverts numbering for every index the driver accepts, and for no other. */
  lemma IndexOfBranchId(i: nat)
    ensures IndexOf(BranchId(i)) == if i <= 9999 then Some(i) else None
  {
    ValueOfPad2(i + 1);
    var s := BranchId(i);
    assert IsDigit(s[0]);
  }

  /** A string passes the guard exactly when it is the number of some accepted index. */
  lemma CanonicalExactly(s: string)
    ensures IsCanonicalBranchId(s) <==> exists i: nat :: i <= 9999 && s == BranchId(i)
  {
    if IsCanonicalBranchId(s) {
      var i := IndexOf(s).value;
      assert s == BranchId(i);
    }
    if i: nat :| i <= MAX_BRANCH_INDEX && s == BranchId(i) {
      IndexOfBranchId(i);
    }
  }

  lemma BranchIdInjective(i: nat, j: nat)
    requires BranchId(i) == BranchId(j)
    ensures i == j
  {
    Pad2Injective(i + 1, j + 1);
  }

  /** Strings the parser reads but the guard must refuse: each would be stored under one key
      and looked up under another. */
  lemma ParsedButNotCanonical()
    ensures IndexOf("1") == Some(0) && !IsCanonicalBranchId("1")
    ensures IndexOf("001") == Some(0) && !IsCanonicalBranchId("001")
    ensures IndexOf("+1") == Some(0) && !IsCanonicalBranchId("+1")
  {
    assert Decimal(1) == "1" && BranchId(0) == "01";
    ValueOfDecimal(1);
    assert Value("1") == 1;
    LeadingZero("1");
    assert "0" + "1" == "01";
    LeadingZero("01");
    assert "0" + "01" == "001";
    assert "+1"[1..] == "1";
  }
}
