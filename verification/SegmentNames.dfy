/** Fixed-width segment names and the discovery of segments in a directory
    listing (sensor-server/data-file.go, sensor-server/quarantine.go). Both
    kinds of segment share one scheme: a prefix, eight decimal digits and a
    suffix. */
module SegmentNames {
  import opened Results

  const WIDTH := 8
  const MAX_SEQUENCE := 99_999_999

  datatype Scheme = Scheme(prefix: string, suffix: string)
  datatype DirEntry = DirEntry(name: string, isDir: bool)

  const DATA_SEGMENTS := Scheme("", ".dat")
  const QUARANTINE_SEGMENTS := Scheme("quarantine-", ".bin")

  function Digit(d: nat): (c: char)
    requires d < 10
    ensures '0' <= c <= '9' && c as int - '0' as int == d
  {
    ('0' as int + d) as char
  }

  predicate IsDigit(c: char)
  {
    '0' <= c <= '9'
  }

  function Decimal(n: nat): (s: string)
    ensures |s| >= 1
  {
    if n < 10 then [Digit(n)] else Decimal(n / 10) + [Digit(n % 10)]
  }

  function Zeros(n: nat): (s: string)
    ensures |s| == n
  {
    if n == 0 then "" else Zeros(n - 1) + "0"
  }

  /** The %08d format: at least eight digits, padded with zeros. */
  function Printed(n: nat): (s: string)
  {
    var d := Decimal(n);
    if |d| < WIDTH then Zeros(WIDTH - |d|) + d else d
  }

  function Name(scheme: Scheme, sequence: nat): (name: string)
  {
    scheme.prefix + Printed(sequence) + scheme.suffix
  }

  function DigitOf(c: char): (d: nat)
    requires IsDigit(c)
    ensures d < 10 && Digit(d) == c
  {
    c as int - '0' as int
  }

  function DigitsValue(s: string): (n: nat)
    requires forall i :: 0 <= i < |s| ==> IsDigit(s[i])
  {
    if s == "" then 0 else 10 * DigitsValue(s[..|s| - 1]) + DigitOf(s[|s| - 1])
  }

  /** A name is accepted when prefix, suffix and length fit, the eight
      characters between are digits, and the number is at least one. */
  function Parse(scheme: Scheme, name: string): (r: Option<nat>)
  {
    var p, q := |scheme.prefix|, |scheme.suffix|;
    if |name| != p + WIDTH + q || name[..p] != scheme.prefix || name[p + WIDTH..] != scheme.suffix then None
    else
      var digits := name[p..p + WIDTH];
      if exists i :: 0 <= i < WIDTH && !IsDigit(digits[i]) then None
      else if DigitsValue(digits) < 1 then None
      else Some(DigitsValue(digits))
  }

  function Pow10(n: nat): (p: nat)
    ensures p > 0
  {
    if n == 0 then 1 else 10 * Pow10(n - 1)
  }

  /** Exactly k digits. */
  function Fixed(k: nat, n: nat): (s: string)
    ensures |s| == k
    ensures forall i :: 0 <= i < k ==> IsDigit(s[i])
  {
    if k == 0 then "" else Fixed(k - 1, n / 10) + [Digit(n % 10)]
  }

  lemma {:induction false} FixedZero(k: nat)
    ensures Fixed(k, 0) == Zeros(k)
  {
    if k > 0 {
      FixedZero(k - 1);
      assert Digit(0) == '0';
    }
  }

  lemma {:induction false} PaddedIsFixed(k: nat, n: nat)
    requires k >= 1 && n < Pow10(k)
    ensures |Decimal(n)| <= k && Zeros(k - |Decimal(n)|) + Decimal(n) == Fixed(k, n)
    decreases k
  {
    if n < 10 {
      FixedZero(k - 1);
      assert Zeros(k - 1) + [Digit(n)] == Fixed(k, n);
    } else {
      PaddedIsFixed(k - 1, n / 10);
      var d := Decimal(n / 10);
      assert Zeros(k - 1 - |d|) + (d + [Digit(n % 10)]) == Zeros(k - 1 - |d|) + d + [Digit(n % 10)];
    }
  }

  lemma {:induction false} FixedValue(k: nat, n: nat)
    requires n < Pow10(k)
    ensures DigitsValue(Fixed(k, n)) == n
  {
    if k > 0 {
      FixedValue(k - 1, n / 10);
      assert Fixed(k, n)[..k - 1] == Fixed(k - 1, n / 10);
    }
  }

  lemma {:induction false} FixedOfValue(s: string)
    requires forall i :: 0 <= i < |s| ==> IsDigit(s[i])
    ensures DigitsValue(s) < Pow10(|s|) && Fixed(|s|, DigitsValue(s)) == s
    decreases |s|
  {
    hide Fixed, DigitsValue, Pow10;
    if s != "" {
      var front, last := s[..|s| - 1], s[|s| - 1];
      FixedOfValue(front);
      LastDigit(DigitsValue(front), DigitOf(last));
      DigitStep(s);
      FixedStep(|s|, DigitsValue(s));
      assert s == front + [last];
    } else {
      NoDigits();
    }
  }

  lemma NoDigits()
    ensures DigitsValue("") == 0 && Pow10(0) == 1 && Fixed(0, 0) == ""
  {
  }

  lemma FixedStep(k: nat, n: nat)
    requires k > 0
    ensures Fixed(k, n) == Fixed(k - 1, n / 10) + [Digit(n % 10)] && Pow10(k) == 10 * Pow10(k - 1)
  {
  }

  lemma DigitStep(s: string)
    requires s != "" && forall i :: 0 <= i < |s| ==> IsDigit(s[i])
    ensures DigitsValue(s) == 10 * DigitsValue(s[..|s| - 1]) + DigitOf(s[|s| - 1])
  {
  }

  lemma LastDigit(n: nat, d: nat)
    requires d < 10
    ensures (10 * n + d) / 10 == n && (10 * n + d) % 10 == d
  {
  }

  lemma {:induction false} LongDecimal(k: nat, n: nat)
    requires n >= Pow10(k)
    ensures |Decimal(n)| > k
    decreases k
  {
    if k > 0 && n >= 10 {
      LongDecimal(k - 1, n / 10);
    }
  }

  lemma Pow10Of8()
    ensures Pow10(WIDTH) == MAX_SEQUENCE + 1
  {
    assert Pow10(4) == 10_000;
    assert Pow10(8) == 10_000 * Pow10(4);
  }

  lemma PrintedIsFixed(n: nat)
    requires n <= MAX_SEQUENCE
    ensures Printed(n) == Fixed(WIDTH, n)
  {
    hide Decimal, Fixed, Pow10;
    Pow10Of8();
    PaddedIsFixed(WIDTH, n);
    assert Zeros(0) + Decimal(n) == Decimal(n);
  }

  /** The digits of a name: eight of them, the most significant first. */
  lemma NameLayout(scheme: Scheme, n: nat)
    requires n <= MAX_SEQUENCE
    ensures Name(scheme, n) ==
            scheme.prefix
            + [Digit(n / 10_000_000), Digit(n / 1_000_000 % 10), Digit(n / 100_000 % 10), Digit(n / 10_000 % 10),
               Digit(n / 1000 % 10), Digit(n / 100 % 10), Digit(n / 10 % 10), Digit(n % 10)]
            + scheme.suffix
  {
    hide Printed, Fixed, Digit;
    PrintedIsFixed(n);
    FixedStep(8, n);
    FixedStep(7, n / 10);
    FixedStep(6, n / 10 / 10);
    FixedStep(5, n / 10 / 10 / 10);
    FixedStep(4, n / 10 / 10 / 10 / 10);
    FixedStep(3, n / 10 / 10 / 10 / 10 / 10);
    FixedStep(2, n / 10 / 10 / 10 / 10 / 10 / 10);
    FixedStep(1, n / 10 / 10 / 10 / 10 / 10 / 10 / 10);
    assert n / 10 / 10 == n / 100 && n / 10 / 10 / 10 == n / 1000 && n / 10 / 10 / 10 / 10 == n / 10_000;
    assert n / 10_000 / 10 == n / 100_000 && n / 100_000 / 10 == n / 1_000_000 && n / 1_000_000 / 10 == n / 10_000_000;
    assert n / 10_000_000 % 10 == n / 10_000_000;
    assert |Fixed(0, n / 10 / 10 / 10 / 10 / 10 / 10 / 10 / 10)| == 0;
  }

  /** The first segments of both kinds. */
  lemma FirstNames()
    ensures Name(DATA_SEGMENTS, 1) == "00000001.dat" && Name(QUARANTINE_SEGMENTS, 1) == "quarantine-00000001.bin"
  {
    hide Printed, Name;
    NameLayout(DATA_SEGMENTS, 1);
    NameLayout(QUARANTINE_SEGMENTS, 1);
    assert Digit(0) == '0' && Digit(1) == '1';
  }

  /** Parsing recovers a sequence from its name exactly for 1 to 99999999; the
      name of any other sequence is not recognised at all. */
  lemma ParseOfName(scheme: Scheme, sequence: nat)
    ensures Parse(scheme, Name(scheme, sequence)) ==
            if 1 <= sequence <= 99_999_999 then Some(sequence) else None
  {
    hide DigitsValue, Fixed;
    var name := Name(scheme, sequence);
    var p, q := |scheme.prefix|, |scheme.suffix|;
    Pow10Of8();
    if sequence <= MAX_SEQUENCE {
      PrintedIsFixed(sequence);
      FixedValue(WIDTH, sequence);
      assert name[..p] == scheme.prefix && name[p..p + WIDTH] == Fixed(WIDTH, sequence)
             && name[p + WIDTH..] == scheme.suffix;
    } else {
      LongDecimal(WIDTH, sequence);
    }
  }

  /** A recognised name is the name of the sequence it parses to. */
  lemma NameOfParsed(scheme: Scheme, name: string)
    requires Parse(scheme, name).Some?
    ensures Name(scheme, Parse(scheme, name).value) == name
    ensures 1 <= Parse(scheme, name).value <= MAX_SEQUENCE
  {
    hide DigitsValue, Fixed, Printed, Decimal, Pow10;
    var p := |scheme.prefix|;
    var digits := name[p..p + WIDTH];
    Pow10Of8();
    FixedOfValue(digits);
    PrintedIsFixed(DigitsValue(digits));
    assert name == name[..p] + digits + name[p + WIDTH..];
  }

  // ---- discovery ----

  /** A directory listing, in any order, of files keyed by sequence; whatever
      else the directory holds is not a regular file with a segment name. */
  ghost predicate Lists<T>(scheme: Scheme, listing: seq<DirEntry>, files: map<nat, T>)
  {
    && (forall i, j :: 0 <= i < j < |listing| ==> listing[i].name != listing[j].name)
    && (forall v: nat :: v in files <==> DirEntry(Name(scheme, v), false) in listing)
  }

  ghost predicate Increasing(s: seq<nat>)
  {
    forall i, j :: 0 <= i < j < |s| ==> s[i] < s[j]
  }

  /** Insertion into a sorted list, as the sort of the found segments does. */
  function Insert(s: seq<nat>, v: nat): (r: seq<nat>)
    ensures forall x :: x in r <==> x in s || x == v
  {
    if s == [] then [v]
    else if s[|s| - 1] < v then s + [v]
    else
      var front := Insert(s[..|s| - 1], v);
      assert s == s[..|s| - 1] + [s[|s| - 1]];
      front + [s[|s| - 1]]
  }

  lemma {:induction false} InsertSorted(s: seq<nat>, v: nat)
    requires Increasing(s) && v !in s
    ensures Increasing(Insert(s, v))
    decreases |s|
  {
    if s != [] && s[|s| - 1] >= v {
      var front, last := s[..|s| - 1], s[|s| - 1];
      assert s == front + [last];
      InsertSorted(front, v);
      forall i | 0 <= i < |Insert(front, v)|
        ensures Insert(front, v)[i] < last
      {
        assert Insert(front, v)[i] in Insert(front, v);
      }
    }
  }

  /** Discovery returns, sorted and whatever the listing order, exactly the
      existing segments that have an eight-digit name. */
  method DiscoverSegments<T>(scheme: Scheme, listing: seq<DirEntry>, ghost files: map<nat, T>) returns (found: seq<nat>)
    requires Lists(scheme, listing, files)
    ensures Increasing(found)
    ensures forall v: nat :: v in found <==> v in files && 1 <= v <= MAX_SEQUENCE
  {
    hide Name, Parse, Insert;
    found := [];
    for i := 0 to |listing|
      invariant Increasing(found)
      invariant forall v: nat :: v in found <==>
                  1 <= v <= MAX_SEQUENCE && DirEntry(Name(scheme, v), false) in listing[..i]
    {
      var entry := listing[i];
      var parsed := Parse(scheme, entry.name);
      assert listing[..i + 1] == listing[..i] + [entry];
      if parsed.Some? {
        NameOfParsed(scheme, entry.name);
        if !entry.isDir {
          assert parsed.value !in found;
          InsertSorted(found, parsed.value);
          found := Insert(found, parsed.value);
        }
      }
      forall v: nat | 1 <= v <= MAX_SEQUENCE && entry == DirEntry(Name(scheme, v), false)
        ensures parsed == Some(v)
      {
        ParseOfName(scheme, v);
      }
    }
    assert listing[..|listing|] == listing;
  }
}
