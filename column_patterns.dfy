/**
 * The six column-name patterns of the row transformer, each of the shape
 * `^prefix(\d+)suffix$` with the `i` flag and without the `u` flag.
 *
 * Every literal character of these patterns is ASCII.  Without the `u`
 * flag, case-insensitive matching compares the upper-case forms of two
 * characters, and a non-ASCII character whose upper-case form would be
 * ASCII is left alone, so an input character matches an ASCII literal
 * exactly when their ASCII upper-case forms agree.  `\d` is `[0-9]`, and the
 * unescaped `.` in the registration pattern matches any character but a
 * line terminator.
 */
module ColumnPatterns {
  import opened Wrappers
  import opened JsObjects

  datatype Atom = Lit(c: char) | AnyChar

  function Lits(s: string): (r: seq<Atom>)
    ensures |r| == |s|
  {
    seq(|s|, i requires 0 <= i < |s| => Lit(s[i]))
  }

  function Upper(c: char): char {
    if 'a' <= c <= 'z' then (c as int - 32) as char else c
  }

  predicate IsLineTerminator(c: char) {
    c == '\n' || c == '\r' || c as int == 0x2028 || c as int == 0x2029
  }

  predicate AtomMatches(a: Atom, c: char) {
    match a
    case Lit(p) => Upper(c) == Upper(p)
    case AnyChar => !IsLineTerminator(c)
  }

  predicate AtomsMatch(atoms: seq<Atom>, s: string) {
    |atoms| == |s| && forall i :: 0 <= i < |s| ==> AtomMatches(atoms[i], s[i])
  }

  /** `^prefix(\d+)suffix$`, case-insensitively. */
  datatype Pattern = Pattern(prefix: seq<Atom>, suffix: seq<Atom>)

  /** The digits captured by group 1 when `key` matches `p`, or `None` (a `null` match). */
  function Capture(p: Pattern, key: string): Option<string> {
    var lo, hi := |p.prefix|, |key| - |p.suffix|;
    if lo < hi
       && AtomsMatch(p.prefix, key[..lo])
       && AtomsMatch(p.suffix, key[hi..])
       && AllDigits(key[lo..hi])
    then Some(key[lo..hi])
    else None
  }

  /** Every way of writing `key` as prefix, digits and suffix is the one `Capture` finds. */
  lemma CaptureComplete(p: Pattern, before: string, digits: string, after: string)
    requires AtomsMatch(p.prefix, before)
    requires |digits| > 0 && AllDigits(digits)
    requires AtomsMatch(p.suffix, after)
    ensures Capture(p, before + digits + after) == Some(digits)
  {
    var key := before + digits + after;
    var lo, hi := |p.prefix|, |key| - |p.suffix|;
    assert key[..lo] == before;
    assert key[lo..hi] == digits;
    assert key[hi..] == after;
  }

  /** `/^Proprietor Name \((\d+)\)$/i` */
  const NamePattern := Pattern(Lits("Proprietor Name ("), Lits(")"))
  /** `/^Proprietorship Category \((\d+)\)$/i` */
  const CategoryPattern := Pattern(Lits("Proprietorship Category ("), Lits(")"))
  /** `/^Company Registration No. \((\d+)\)$/i`, whose `.` is a wildcard */
  const RegistrationPattern := Pattern(Lits("Company Registration No") + [AnyChar] + Lits(" ("), Lits(")"))
  /** `/^Proprietor \((\d+)\) Address \(1\)$/i` */
  const Address1Pattern := Pattern(Lits("Proprietor ("), Lits(") Address (1)"))
  /** `/^Proprietor \((\d+)\) Address \(2\)$/i` */
  const Address2Pattern := Pattern(Lits("Proprietor ("), Lits(") Address (2)"))
  /** `/^Proprietor \((\d+)\) Address \(3\)$/i` */
  const Address3Pattern := Pattern(Lits("Proprietor ("), Lits(") Address (3)"))

  /** The six indexed column families, in the order the transformer tries them. */
  datatype Family = Name | Category | Registration | Address1 | Address2 | Address3

  function PatternOf(f: Family): Pattern {
    match f
    case Name => NamePattern
    case Category => CategoryPattern
    case Registration => RegistrationPattern
    case Address1 => Address1Pattern
    case Address2 => Address2Pattern
    case Address3 => Address3Pattern
  }

  /** A column either belongs to one family at an index, or is passed through. */
  datatype Column = Indexed(family: Family, index: string) | Plain

  /** The `if ... else if` chain over the six matches. */
  function Classify(key: string): Column {
    var name := Capture(NamePattern, key);
    var category := Capture(CategoryPattern, key);
    var registration := Capture(RegistrationPattern, key);
    var address1 := Capture(Address1Pattern, key);
    var address2 := Capture(Address2Pattern, key);
    var address3 := Capture(Address3Pattern, key);
    if name.Some? then Indexed(Name, name.value)
    else if category.Some? then Indexed(Category, category.value)
    else if registration.Some? then Indexed(Registration, registration.value)
    else if address1.Some? then Indexed(Address1, address1.value)
    else if address2.Some? then Indexed(Address2, address2.value)
    else if address3.Some? then Indexed(Address3, address3.value)
    else Plain
  }

  /** What `Capture` finds is a decomposition of `key` into prefix, digits and suffix. */
  lemma CaptureSound(p: Pattern, key: string)
    requires Capture(p, key).Some?
    ensures |p.prefix| + |p.suffix| < |key|
    ensures var d := Capture(p, key).value;
      && |d| > 0 && AllDigits(d)
      && key == key[..|p.prefix|] + d + key[|key| - |p.suffix|..]
      && AtomsMatch(p.prefix, key[..|p.prefix|])
      && AtomsMatch(p.suffix, key[|key| - |p.suffix|..])
  {
  }

  /** The character at `i` of a key matching prefix `p` agrees with the literal at `i` of `p`. */
  lemma PrefixAt(p: Pattern, key: string, i: nat)
    requires Capture(p, key).Some?
    requires i < |p.prefix| && p.prefix[i].Lit?
    ensures Upper(key[i]) == Upper(p.prefix[i].c)
  {
    CaptureSound(p, key);
    assert AtomMatches(p.prefix[i], key[..|p.prefix|][i]);
  }

  /** The character `i` places before the end of a key matching suffix `p` agrees with the suffix. */
  lemma SuffixAt(p: Pattern, key: string, i: nat)
    requires Capture(p, key).Some?
    requires 0 < i <= |p.suffix| && p.suffix[|p.suffix| - i].Lit?
    ensures Upper(key[|key| - i]) == Upper(p.suffix[|p.suffix| - i].c)
  {
    CaptureSound(p, key);
    var n := |p.suffix|;
    assert AtomMatches(p.suffix[n - i], key[|key| - n..][n - i]);
  }

  /** Characters of a key that each family's pattern fixes, enough to tell the families apart. */
  lemma Fingerprint(key: string, f: Family)
    requires Capture(PatternOf(f), key).Some?
    ensures f == Name ==> Upper(key[0]) == 'P' && Upper(key[10]) == ' ' && Upper(key[11]) == 'N'
    ensures f == Category ==> Upper(key[0]) == 'P' && Upper(key[10]) == 'S'
    ensures f == Registration ==> Upper(key[0]) == 'C'
    ensures f in {Address1, Address2, Address3} ==>
      Upper(key[0]) == 'P' && Upper(key[10]) == ' ' && Upper(key[11]) == '('
    ensures f == Address1 ==> Upper(key[|key| - 2]) == '1'
    ensures f == Address2 ==> Upper(key[|key| - 2]) == '2'
    ensures f == Address3 ==> Upper(key[|key| - 2]) == '3'
  {
    match f
    case Name =>
      var p := NamePattern.prefix;
      assert p[0] == Lit('P') && p[10] == Lit(' ') && p[11] == Lit('N');
      PrefixAt(NamePattern, key, 0);
      PrefixAt(NamePattern, key, 10);
      PrefixAt(NamePattern, key, 11);
    case Category =>
      var p := CategoryPattern.prefix;
      assert p[0] == Lit('P') && p[10] == Lit('s');
      PrefixAt(CategoryPattern, key, 0);
      PrefixAt(CategoryPattern, key, 10);
    case Registration =>
      assert RegistrationPattern.prefix[0] == Lit('C');
      PrefixAt(RegistrationPattern, key, 0);
    case Address1 =>
      AddressFingerprint(key, Address1Pattern, '1');
    case Address2 =>
      AddressFingerprint(key, Address2Pattern, '2');
    case Address3 =>
      AddressFingerprint(key, Address3Pattern, '3');
  }

  lemma AddressFingerprint(key: string, p: Pattern, line: char)
    requires p == Pattern(Lits("Proprietor ("), Lits(") Address (") + [Lit(line), Lit(')')])
    requires Capture(p, key).Some?
    ensures Upper(key[0]) == 'P' && Upper(key[10]) == ' ' && Upper(key[11]) == '('
    ensures Upper(key[|key| - 2]) == Upper(line)
  {
    assert p.prefix[0] == Lit('P') && p.prefix[10] == Lit(' ') && p.prefix[11] == Lit('(');
    assert |p.suffix| == 13 && p.suffix[11] == Lit(line);
    PrefixAt(p, key, 0);
    PrefixAt(p, key, 10);
    PrefixAt(p, key, 11);
    SuffixAt(p, key, 2);
  }

  /** No key matches two of the six patterns. */
  lemma PatternsExclusive(key: string, f: Family, g: Family)
    requires Capture(PatternOf(f), key).Some?
    requires Capture(PatternOf(g), key).Some?
    ensures f == g
  {
    Fingerprint(key, f);
    Fingerprint(key, g);
  }

  /**
   * A key falls in family `f`, at the index the pattern captures, exactly
   * when it matches `f`'s pattern, whatever the order of the `else if` chain.
   */
  lemma ClassifyIndexed(key: string, f: Family)
    ensures Capture(PatternOf(f), key).Some? <==> Classify(key).Indexed? && Classify(key).family == f
    ensures Capture(PatternOf(f), key).Some? ==> Classify(key).index == Capture(PatternOf(f), key).value
  {
    forall g | Capture(PatternOf(g), key).Some? && Capture(PatternOf(f), key).Some?
      ensures g == f
    {
      PatternsExclusive(key, f, g);
    }
    MentionAll(key);
  }

  /** A key is passed through exactly when it matches none of the six patterns. */
  lemma ClassifyPlain(key: string)
    ensures Classify(key) == Plain <==> forall f :: Capture(PatternOf(f), key) == None
  {
    MentionAll(key);
  }

  /** Names each family's capture, so that statements about all families reach `Classify`. */
  lemma MentionAll(key: string)
    ensures Capture(PatternOf(Name), key) == Capture(NamePattern, key)
    ensures Capture(PatternOf(Category), key) == Capture(CategoryPattern, key)
    ensures Capture(PatternOf(Registration), key) == Capture(RegistrationPattern, key)
    ensures Capture(PatternOf(Address1), key) == Capture(Address1Pattern, key)
    ensures Capture(PatternOf(Address2), key) == Capture(Address2Pattern, key)
    ensures Capture(PatternOf(Address3), key) == Capture(Address3Pattern, key)
  {
  }
}
