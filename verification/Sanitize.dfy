/** Turning a server-supplied name into a safe file name. Lengths are in UTF-8 bytes. */
module Sanitize {
  import opened Wrappers

  const MAX_FILENAME_LEN: nat := 200
  const MAX_EXTENSION_LEN: nat := 16
  const FALLBACK_FILENAME := "download.bin"

  // ----- UTF-8 lengths -----

  function Width(c: char): (n: nat)
    ensures 1 <= n <= 4
  {
    if c < '\U{80}' then 1 else if c < '\U{800}' then 2 else if c < '\U{10000}' then 3 else 4
  }

  function Bytes(s: string): nat {
    if s == "" then 0 else Width(s[0]) + Bytes(s[1..])
  }

  lemma {:induction false} BytesOfConcat(s: string, t: string)
    ensures Bytes(s + t) == Bytes(s) + Bytes(t)
  {
    if s == "" {
      assert s + t == t;
    } else {
      assert (s + t)[1..] == s[1..] + t;
      BytesOfConcat(s[1..], t);
    }
  }

  /** The longest prefix of at most n bytes. */
  function Fit(s: string, n: nat): string {
    if s == "" || Width(s[0]) > n then "" else [s[0]] + Fit(s[1..], n - Width(s[0]))
  }

  lemma {:induction false} FitIsLongest(s: string, n: nat)
    ensures Fit(s, n) <= s && Bytes(Fit(s, n)) <= n
    ensures forall k :: |Fit(s, n)| < k <= |s| ==> Bytes(s[..k]) > n
  {
    if s != "" && Width(s[0]) <= n {
      FitIsLongest(s[1..], n - Width(s[0]));
      var r := Fit(s[1..], n - Width(s[0]));
      assert Fit(s, n) == [s[0]] + r && Fit(s, n)[1..] == r;
      forall k | |Fit(s, n)| < k <= |s| ensures Bytes(s[..k]) > n {
        assert s[..k][1..] == s[1..][..k - 1];
      }
    } else if s != "" {
      forall k | 0 < k <= |s| ensures Bytes(s[..k]) > n {
        assert s[..k][0] == s[0];
      }
    }
  }

  lemma {:induction false} FitWhole(s: string, n: nat)
    ensures Fit(s, n) == s <==> Bytes(s) <= n
  {
    if s != "" && Width(s[0]) <= n {
      FitWhole(s[1..], n - Width(s[0]));
      assert s == [s[0]] + s[1..];
    }
  }

  predicate IsCharBoundary(s: string, b: nat) {
    b == 0 || (s != "" && Width(s[0]) <= b && IsCharBoundary(s[1..], b - Width(s[0])))
  }

  function Truncate(s: string, b: nat): string
    requires IsCharBoundary(s, b)
  {
    if b == 0 then "" else [s[0]] + Truncate(s[1..], b - Width(s[0]))
  }

  // Boundaries up to n are boundaries of the longest fitting prefix.
  lemma {:induction false} BoundaryInFit(s: string, b: nat, n: nat)
    requires IsCharBoundary(s, b) && b <= n
    ensures b <= Bytes(Fit(s, n)) && (b == Bytes(Fit(s, n)) ==> Truncate(s, b) == Fit(s, n))
  {
    if b > 0 {
      BoundaryInFit(s[1..], b - Width(s[0]), n - Width(s[0]));
      assert Fit(s, n)[1..] == Fit(s[1..], n - Width(s[0]));
    } else if Bytes(Fit(s, n)) == 0 {
      assert Fit(s, n) == "";
    }
  }

  lemma {:induction false} FitEndsOnBoundary(s: string, n: nat)
    ensures IsCharBoundary(s, Bytes(Fit(s, n)))
  {
    if s != "" && Width(s[0]) <= n {
      FitEndsOnBoundary(s[1..], n - Width(s[0]));
      assert Fit(s, n)[1..] == Fit(s[1..], n - Width(s[0]));
    }
  }

  // A last character that does not fit does not matter.
  lemma {:induction false} PopKeepsFit(s: string, n: nat)
    requires Bytes(s) > n
    ensures s != "" && Fit(s[..|s| - 1], n) == Fit(s, n)
  {
    if Width(s[0]) <= n {
      PopKeepsFit(s[1..], n - Width(s[0]));
      assert s[..|s| - 1][1..] == s[1..][..|s[1..]| - 1];
    }
  }

  // ----- the specification -----

  predicate IsReplaced(c: char) {
    || c == '/' || c == '\\' || c == '<' || c == '>' || c == ':' || c == '\"'
    || c == '|' || c == '?' || c == '*' || c < ' '
  }

  function Replace(c: char): char {
    if IsReplaced(c) then '_' else c
  }

  function ReplaceAll(name: string): string {
    seq(|name|, i requires 0 <= i < |name| => Replace(name[i]))
  }

  predicate BadFirst(c: char) {
    c == '.' || c == ' ' || c == '_'
  }

  predicate BadLast(c: char) {
    c == '.' || c == ' '
  }

  function StripFirst(s: string): string {
    if s != "" && BadFirst(s[0]) then StripFirst(s[1..]) else s
  }

  function StripLast(s: string): string {
    if s != "" && BadLast(s[|s| - 1]) then StripLast(s[..|s| - 1]) else s
  }

  function Stripped(name: string): string {
    StripLast(StripFirst(ReplaceAll(name)))
  }

  // One past the last dot; 0 when there is none.
  function AfterLastDot(s: string): (k: nat)
    ensures k <= |s| && (k > 0 ==> s[k - 1] == '.')
  {
    if s == "" then 0 else if s[|s| - 1] == '.' then |s| else AfterLastDot(s[..|s| - 1])
  }

  // Whether a name that is too long keeps its extension, and where that starts.
  predicate KeepsExtension(s: string) {
    var k := AfterLastDot(s);
    k > 1 && Bytes(s[k - 1..]) <= MAX_EXTENSION_LEN
  }

  // The stem and the extension a long name is put together from.
  function KeptExtension(s: string): string
    requires KeepsExtension(s)
  {
    s[AfterLastDot(s) - 1..]
  }

  function KeptStem(s: string): string
    requires KeepsExtension(s)
  {
    Fit(s[..AfterLastDot(s) - 1], MAX_FILENAME_LEN - Bytes(KeptExtension(s)))
  }

  function Shortened(s: string): string {
    if Bytes(s) <= MAX_FILENAME_LEN then s
    else if KeepsExtension(s) then
      KeptStem(s) + KeptExtension(s)
    else Fit(s, MAX_FILENAME_LEN)
  }

  function Sanitized(name: string): string {
    var s := Stripped(name);
    if s == "" || s == "." || s == ".." then FALLBACK_FILENAME else Shortened(s)
  }

  // The branch that cuts the name and its extension.
  predicate IsHardCut(name: string) {
    var s := Stripped(name);
    s != "" && Bytes(s) > MAX_FILENAME_LEN && !KeepsExtension(s)
  }

  // ----- the code -----

  method StripInPlace(t: string) returns (s: string)
    ensures s == StripLast(StripFirst(t))
  {
    s := t;
    while s != "" && BadFirst(s[0])
      invariant StripFirst(s) == StripFirst(t)
      decreases |s|
    {
      s := s[1..];
      if s == "" {
        break;
      }
    }
    while s != "" && BadLast(s[|s| - 1])
      invariant StripLast(s) == StripLast(StripFirst(t))
      decreases |s|
    {
      s := s[..|s| - 1];
    }
  }

  method RFindDot(s: string) returns (k: nat)
    ensures k == AfterLastDot(s)
  {
    k := |s|;
    assert s[..k] == s;
    while k > 0 && s[k - 1] != '.'
      invariant k <= |s| && AfterLastDot(s[..k]) == AfterLastDot(s)
    {
      assert s[..k][..k - 1] == s[..k - 1];
      k := k - 1;
    }
  }

  // Pops characters until the budget falls on a boundary, then truncates there.
  method CutStem(whole: string, budget: nat) returns (r: string)
    ensures r == Fit(whole, budget)
  {
    var stem := whole;
    FitWhole(stem, Bytes(stem));
    FitEndsOnBoundary(stem, Bytes(stem));
    while !IsCharBoundary(stem, Min(budget, Bytes(stem)))
      invariant Fit(stem, budget) == Fit(whole, budget)
      invariant IsCharBoundary(stem, Bytes(stem))
      decreases |stem|
    {
      PopKeepsFit(stem, budget);
      stem := stem[..|stem| - 1];
      FitWhole(stem, Bytes(stem));
      FitEndsOnBoundary(stem, Bytes(stem));
    }
    var cut := Min(budget, Bytes(stem));
    BoundaryInFit(stem, cut, budget);
    FitIsLongest(stem, budget);
    FitWhole(stem, budget);
    r := Truncate(stem, cut);
  }

  // Moves the cut down to a boundary, then truncates there.
  method CutAtBoundary(s: string, limit: nat) returns (r: string)
    ensures r == Fit(s, limit)
  {
    var cut := limit;
    FitEndsOnBoundary(s, limit);
    FitIsLongest(s, limit);
    while !IsCharBoundary(s, cut)
      invariant Bytes(Fit(s, limit)) <= cut <= limit
      decreases cut
    {
      cut := cut - 1;
    }
    BoundaryInFit(s, cut, limit);
    r := Truncate(s, cut);
  }

  method SanitizeName(name: string) returns (s: string)
    ensures s == Sanitized(name)
  {
    s := StripInPlace(ReplaceAll(name));
    if s == "" || s == "." || s == ".." {
      return FALLBACK_FILENAME;
    }
    s := Shorten(s);
  }

  method Shorten(name: string) returns (s: string)
    ensures s == Shortened(name)
  {
    s := name;
    if Bytes(s) > MAX_FILENAME_LEN {
      var k := RFindDot(s);
      if k > 0 {
        var dot := k - 1;
        var ext := s[dot..];
        if Bytes(ext) <= MAX_EXTENSION_LEN && dot > 0 {
          var stem := CutStem(s[..dot], MAX_FILENAME_LEN - Bytes(ext));
          return stem + ext;
        }
      }
      s := CutAtBoundary(s, MAX_FILENAME_LEN);
    }
  }

  // ----- guarantees -----

  // The characters that may not be in a file name on some system.
  predicate Forbidden(c: char) {
    c < '\U{20}' || c in {'/', '\\', '<', '>', ':', '\"', '|', '?', '*'}
  }

  ghost predicate Clean(s: string) {
    forall k :: 0 <= k < |s| ==> !Forbidden(s[k])
  }

  /** What every sanitized name is: safe as one path component, whatever the input. */
  ghost predicate Safe(s: string) {
    s != "" && Bytes(s) <= 200 && Clean(s) && s[0] !in {'.', ' ', '_'}
  }

  lemma {:induction false} StripFirstKeeps(s: string)
    requires Clean(s)
    ensures Clean(StripFirst(s)) && (StripFirst(s) != "" ==> !BadFirst(StripFirst(s)[0]))
  {
    if s != "" && BadFirst(s[0]) {
      StripFirstKeeps(s[1..]);
    }
  }

  lemma {:induction false} StripLastIsPrefix(s: string)
    ensures StripLast(s) <= s
    ensures StripLast(s) != "" ==> !BadLast(StripLast(s)[|StripLast(s)| - 1])
    ensures s != "" && !BadLast(s[0]) ==> StripLast(s) != ""
  {
    if s != "" && BadLast(s[|s| - 1]) {
      StripLastIsPrefix(s[..|s| - 1]);
    }
  }

  lemma StrippedIsClean(name: string)
    ensures var s := Stripped(name);
            Clean(s) && (s != "" ==> !BadFirst(s[0]) && !BadLast(s[|s| - 1]))
  {
    assert Clean(ReplaceAll(name));
    StripFirstKeeps(ReplaceAll(name));
    StripLastIsPrefix(StripFirst(ReplaceAll(name)));
  }

  // A name starting with a good character is never cut to nothing.
  lemma FitKeepsFirst(s: string, n: nat)
    requires s != "" && n >= 4
    ensures Fit(s, n) != "" && Fit(s, n)[0] == s[0]
  {
  }

  lemma KeptParts(s: string)
    requires KeepsExtension(s)
    ensures var e, p := KeptExtension(s), KeptStem(s);
            && p <= s && p != "" && e != "" && e[|e| - 1] == s[|s| - 1]
            && (forall k :: 0 <= k < |e| ==> e[k] in s)
            && Bytes(p) + Bytes(e) <= MAX_FILENAME_LEN
  {
    var dot := AfterLastDot(s) - 1;
    var room := MAX_FILENAME_LEN - Bytes(KeptExtension(s));
    FitIsLongest(s[..dot], room);
    FitKeepsFirst(s[..dot], room);
  }

  lemma ShortenedKeepsEnd(s: string)
    requires Bytes(s) > MAX_FILENAME_LEN && KeepsExtension(s)
    ensures var r := Shortened(s);
            && Bytes(r) <= MAX_FILENAME_LEN
            && r != "" && r[0] == s[0] && r[|r| - 1] == s[|s| - 1]
            && forall k :: 0 <= k < |r| ==> r[k] in s
  {
    KeptParts(s);
    BytesOfConcat(KeptStem(s), KeptExtension(s));
    assert Shortened(s) == KeptStem(s) + KeptExtension(s);
  }

  lemma {:induction false} BytesAtMost(s: string)
    ensures Bytes(s) <= 4 * |s|
  {
    if s != "" {
      BytesAtMost(s[1..]);
    }
  }

  lemma FallbackIsClean()
    ensures Clean(FALLBACK_FILENAME)
  {
    var s := FALLBACK_FILENAME;
    forall k | 0 <= k < |s| ensures s[k] == '.' || 'a' <= s[k] <= 'z' {
    }
  }

  lemma FallbackIsSafe()
    ensures Safe(FALLBACK_FILENAME) && !BadLast(FALLBACK_FILENAME[|FALLBACK_FILENAME| - 1])
  {
    FallbackIsClean();
    BytesAtMost(FALLBACK_FILENAME);
  }

  lemma {:induction false} AsciiBytes(s: string)
    requires forall k :: 0 <= k < |s| ==> s[k] < '\U{80}'
    ensures Bytes(s) == |s|
  {
    if s != "" {
      AsciiBytes(s[1..]);
    }
  }

  lemma ShortenedIsSafe(s: string)
    requires s != "" && Clean(s) && !BadFirst(s[0])
    ensures Safe(Shortened(s))
  {
    if Bytes(s) > MAX_FILENAME_LEN {
      if KeepsExtension(s) {
        ShortenedKeepsEnd(s);
      } else {
        FitIsLongest(s, MAX_FILENAME_LEN);
        FitKeepsFirst(s, MAX_FILENAME_LEN);
      }
    }
  }

  /** For every name the result is non-empty, at most 200 bytes, free of replaced
      characters, and does not begin with a dot, space or underscore. */
  lemma SanitizedIsSafe(name: string)
    ensures Safe(Sanitized(name))
  {
    StrippedIsClean(name);
    FallbackIsSafe();
    if Stripped(name) != "" {
      ShortenedIsSafe(Stripped(name));
    }
  }

  /** A long name with a short extension keeps it, after the longest stem that fits. */
  lemma ExtensionIsKept(name: string, k: nat)
    requires var s := Stripped(name);
             Bytes(s) > MAX_FILENAME_LEN && KeepsExtension(s) && |KeptStem(s)| < k < AfterLastDot(s)
    ensures var s := Stripped(name);
            && Sanitized(name) == KeptStem(s) + KeptExtension(s)
            && '.' !in KeptExtension(s)[1..]
            && Bytes(s[..k] + KeptExtension(s)) > MAX_FILENAME_LEN
  {
    var s := Stripped(name);
    var dot := AfterLastDot(s) - 1;
    FitIsLongest(s[..dot], MAX_FILENAME_LEN - Bytes(KeptExtension(s)));
    NoDotAfter(s);
    assert KeptExtension(s)[1..] == s[dot + 1..];
    AsciiBytes(".");
    AsciiBytes("..");
    BytesOfConcat(s[..k], KeptExtension(s));
    assert s[..dot][..k] == s[..k];
  }

  lemma {:induction false} NoDotAfter(s: string)
    ensures '.' !in s[AfterLastDot(s)..]
  {
    if s != "" && s[|s| - 1] != '.' {
      NoDotAfter(s[..|s| - 1]);
      var k := AfterLastDot(s);
      assert s[k..] == s[..|s| - 1][k..] + [s[|s| - 1]];
    }
  }

  /** Outside the hard cut the result does not end in a dot or a space. */
  lemma EndsWellUnlessHardCut(name: string)
    requires !IsHardCut(name)
    ensures var r := Sanitized(name); r != "" && r[|r| - 1] !in {'.', ' '}
  {
    StrippedIsClean(name);
    if Stripped(name) == "" {
      FallbackIsSafe();
    } else {
      StrippedIsShortened(name);
      ShortenedEndsWell(Stripped(name));
    }
  }

  lemma StrippedIsShortened(name: string)
    requires Stripped(name) != ""
    ensures Sanitized(name) == Shortened(Stripped(name))
  {
    StrippedIsClean(name);
  }

  lemma ShortenedEndsWell(s: string)
    requires s != "" && !BadLast(s[|s| - 1]) && (Bytes(s) <= MAX_FILENAME_LEN || KeepsExtension(s))
    ensures var r := Shortened(s); r != "" && !BadLast(r[|r| - 1])
  {
    if Bytes(s) > MAX_FILENAME_LEN {
      ShortenedKeepsEnd(s);
    }
  }

  lemma StripLeavesEnd(s: string)
    requires s != "" && !BadFirst(s[0]) && Clean(s)
    ensures Stripped(s) == StripLast(s)
  {
    assert ReplaceAll(s) == s;
  }

  // What sanitizing does to a name that is already safe.
  lemma SanitizedAgain(r: string)
    requires Safe(r)
    ensures Sanitized(r) == StripLast(r)
  {
    StripLeavesEnd(r);
    StripLastIsPrefix(r);
    PrefixIsShorter(StripLast(r), r);
    assert StripLast(r)[0] == r[0];
  }

  // The name is cut at 200 bytes, right after a dot or a space.
  predicate CutAfterBadLast(name: string) {
    var s := Stripped(name);
    IsHardCut(name) && (var cut := Fit(s, MAX_FILENAME_LEN); cut != "" && BadLast(cut[|cut| - 1]))
  }

  /** Sanitizing again changes the result exactly for the names that are cut, without
      keeping an extension, right after a dot or a space. */
  lemma SecondSanitizeIff(name: string)
    ensures Sanitized(Sanitized(name)) != Sanitized(name) <==> CutAfterBadLast(name)
    ensures !IsHardCut(name) ==> Sanitized(Sanitized(name)) == Sanitized(name)
  {
    SanitizedIsSafe(name);
    ChangesIffBadLast(Sanitized(name));
    if IsHardCut(name) {
      HardCutIsFit(name);
    } else {
      EndsWellUnlessHardCut(name);
    }
  }

  lemma ChangesIffBadLast(r: string)
    requires Safe(r)
    ensures Sanitized(r) != r <==> r[|r| - 1] in {'.', ' '}
  {
    SanitizedAgain(r);
    StripLastIsPrefix(r);
  }

  lemma HardCutIsFit(name: string)
    requires IsHardCut(name)
    ensures Sanitized(name) == Fit(Stripped(name), MAX_FILENAME_LEN)
  {
    AsciiBytes(".");
    AsciiBytes("..");
  }

  lemma PrefixIsShorter(p: string, s: string)
    requires p <= s
    ensures Bytes(p) <= Bytes(s)
  {
    assert s == p + s[|p|..];
    BytesOfConcat(p, s[|p|..]);
  }

  // ----- the hard cut can leave a dot -----

  function Repeat(c: char, n: nat): (r: string)
    ensures |r| == n
  {
    seq(n, _ => c)
  }

  function LongExtension(): string {
    Repeat('a', 199) + ("." + Repeat('b', 20))
  }

  lemma {:induction false} FitOfAscii(s: string, n: nat)
    requires n <= |s| && forall k :: 0 <= k < |s| ==> s[k] < '\U{80}'
    ensures Fit(s, n) == s[..n]
  {
    if n > 0 {
      FitOfAscii(s[1..], n - 1);
      assert s[..n] == [s[0]] + s[1..][..n - 1];
    }
  }

  lemma {:induction false} DotIsAt(s: string, k: nat)
    requires 0 < k <= |s| && s[k - 1] == '.' && '.' !in s[k..]
    ensures AfterLastDot(s) == k
  {
    if k < |s| {
      assert s[|s| - 1] in s[k..];
      assert forall c :: c in s[..|s| - 1][k..] ==> c in s[k..];
      DotIsAt(s[..|s| - 1], k);
    }
  }

  /** A name of 199 letters, a dot and a 20-letter extension is cut right after the dot,
      so a second sanitize removes the dot. */
  lemma HardCutMayEndInDot()
    ensures IsHardCut(LongExtension())
    ensures Sanitized(LongExtension()) == Repeat('a', 199) + "."
    ensures Sanitized(Sanitized(LongExtension())) != Sanitized(LongExtension())
  {
    var s := LongExtension();
    assert s[0] == 'a' && s[|s| - 1] == 'b' && s[199] == '.';
    assert ReplaceAll(s) == s;
    assert Stripped(s) == s;
    AsciiBytes(s);
    AsciiBytes(s[199..]);
    assert '.' !in s[200..];
    DotIsAt(s, 200);
    FitOfAscii(s, 200);
    assert s[..200] == Repeat('a', 199) + ".";
    SecondSanitizeIff(s);
  }

  // ----- what is replaced, and by what -----

  // A name that only needs characters replaced.
  ghost predicate FitsAsItIs(name: string) {
    && name != "" && Bytes(name) <= 200
    && !Forbidden(name[0]) && name[0] !in {'.', ' ', '_'}
    && name[|name| - 1] !in {'.', ' '}
  }

  /** In a short name that begins and ends well exactly the forbidden characters change, each to
      an underscore in its place. */
  lemma OnlyForbiddenAreReplaced(name: string)
    requires FitsAsItIs(name)
    ensures |Sanitized(name)| == |name|
    ensures forall k :: 0 <= k < |name| ==> Sanitized(name)[k] == if Forbidden(name[k]) then '_' else name[k]
  {
    var r := ReplaceAll(name);
    ReplacedBytes(name, r);
    assert StripFirst(r) == r && StripLast(r) == r;
    assert r[0] == name[0];
  }

  lemma {:induction false} ReplacedBytes(name: string, r: string)
    requires |r| == |name| && forall k :: 0 <= k < |name| ==> r[k] == Replace(name[k])
    ensures Bytes(r) == Bytes(name)
  {
    if name != "" {
      ReplacedBytes(name[1..], r[1..]);
    }
  }

  lemma {:induction false} AllStripped(s: string)
    requires forall k :: 0 <= k < |s| ==> s[k] in {'.', ' ', '_'}
    ensures StripFirst(s) == ""
  {
    if s != "" {
      AllStripped(s[1..]);
    }
  }

  /** A name with nothing but forbidden characters, dots, blanks and underscores becomes the
      fallback name. */
  lemma NothingLeftFallsBack(name: string)
    requires forall k :: 0 <= k < |name| ==> Forbidden(name[k]) || name[k] in {'.', ' ', '_'}
    ensures Sanitized(name) == "download.bin"
  {
    AllStripped(ReplaceAll(name));
  }

  // ----- how a long name is cut -----

  // A clean name that is too long, and begins and ends well.
  ghost predicate TooLong(name: string) {
    && Bytes(name) > 200 && Clean(name)
    && name[0] !in {'.', ' ', '_'} && name[|name| - 1] !in {'.', ' '}
  }

  lemma TooLongIsShortened(name: string)
    requires TooLong(name)
    ensures Sanitized(name) == Shortened(name)
  {
    assert ReplaceAll(name) == name;
    AsciiBytes(".");
    AsciiBytes("..");
  }

  /** An extension of at most 16 bytes, its dot included, is kept, after as much of a non-empty
      stem as fits in 200 bytes with it. */
  lemma ShortExtensionIsKept(stem: string, ext: string)
    requires stem != "" && '.' !in ext && 1 + Bytes(ext) <= 16 && TooLong(stem + ("." + ext))
    ensures Sanitized(stem + ("." + ext)) == Fit(stem, 199 - Bytes(ext)) + ("." + ext)
  {
    var name := stem + ("." + ext);
    assert name[|stem|] == '.' && name[|stem| + 1..] == ext && name[|stem|..] == "." + ext && name[..|stem|] == stem;
    DotIsAt(name, |stem| + 1);
    AsciiBytes(".");
    BytesOfConcat(".", ext);
    TooLongIsShortened(name);
  }

  /** Without such an extension the name is cut to as much as fits in 200 bytes. */
  lemma OtherNamesAreCut(name: string)
    requires TooLong(name)
    requires forall stem, ext | stem != "" && '.' !in ext && 1 + Bytes(ext) <= 16 :: name != stem + ("." + ext)
    ensures Sanitized(name) == Fit(name, 200)
  {
    TooLongIsShortened(name);
    if KeepsExtension(name) {
      var stem, ext := SplitAtDot(name);
    }
  }

  lemma SplitAtDot(name: string) returns (stem: string, ext: string)
    requires KeepsExtension(name)
    ensures name == stem + ("." + ext) && stem != "" && '.' !in ext && 1 + Bytes(ext) <= 16
  {
    var k := AfterLastDot(name);
    stem, ext := name[..k - 1], name[k..];
    assert name[k - 1..] == "." + ext;
    NoDotAfter(name);
    AsciiBytes(".");
    BytesOfConcat(".", ext);
  }
}
