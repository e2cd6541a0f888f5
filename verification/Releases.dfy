/**
 Whole versions: epoch, upstream and revision (`_split`), `compare_versions`, the
 prerelease rewrite behind `compare_releases`, and the policy a bundle has to pass.
 */
module Releases {
  import opened Prelude
  import opened Versions

  datatype Version = Version(epoch: nat, upstream: string, revision: string)

  datatype VersionError = NotAscii | Empty | EpochOnly | EmptyUpstream

  predicate IsAscii(s: string) {
    forall i :: 0 <= i < |s| ==> s[i] < '\U{0080}'
  }

  /** The ASCII characters `str.strip` removes. */
  predicate IsSpace(c: char) {
    '\t' <= c <= '\r' || '\U{001c}' <= c <= ' '
  }

  function StripLeft(s: string): string {
    if s != "" && IsSpace(s[0]) then StripLeft(s[1..]) else s
  }

  function StripRight(s: string): string {
    if s != "" && IsSpace(s[|s| - 1]) then StripRight(s[..|s| - 1]) else s
  }

  function Strip(s: string): string {
    StripRight(StripLeft(s))
  }

  /** Where `str.partition` splits: the first occurrence, or the length. */
  function First(s: string, c: char): (i: nat)
    ensures i <= |s| && (i < |s| ==> s[i] == c)
  {
    if s == "" || s[0] == c then 0 else 1 + First(s[1..], c)
  }

  /** Where `str.rpartition` splits: one past the last occurrence, or 0. */
  function AfterLast(s: string, c: char): (i: nat)
    ensures i <= |s| && (i > 0 ==> s[i - 1] == c)
  {
    if s == "" then 0 else if s[|s| - 1] == c then |s| else AfterLast(s[..|s| - 1], c)
  }

  predicate HasEpoch(text: string) {
    var colon := First(text, ':');
    colon < |text| && colon > 0 && AllDigits(text[..colon])
  }

  function EpochOf(text: string): nat {
    if HasEpoch(text) then Value(text[..First(text, ':')]) else 0
  }

  function AfterEpoch(text: string): string {
    if HasEpoch(text) then text[First(text, ':') + 1..] else text
  }

  /** `_split`. */
  function Split(raw: string): Result<Version, VersionError> {
    var text := Strip(raw);
    if text == "" then Err(Empty)
    else if AfterEpoch(text) == "" then Err(EpochOnly)
    else SplitRevision(EpochOf(text), AfterEpoch(text))
  }

  function SplitRevision(epoch: nat, rest: string): Result<Version, VersionError> {
    var dash := AfterLast(rest, '-');
    if dash == 0 then Ok(Version(epoch, rest, ""))
    else if dash == 1 then Err(EmptyUpstream)
    else Ok(Version(epoch, rest[..dash - 1], rest[dash..]))
  }

  function CompareParts(a: Version, b: Version): int {
    if a.epoch != b.epoch then Sign(a.epoch - b.epoch)
    else
      var upstream := Lex(Key(a.upstream), Key(b.upstream));
      if upstream != 0 then upstream else Lex(Key(a.revision), Key(b.revision))
  }

  function Parse(s: string): Result<Version, VersionError> {
    if !IsAscii(s) then Err(NotAscii) else Split(s)
  }

  /** What `compare_versions` answers, or the reason it cannot. */
  function CompareVersions(left: string, right: string): Result<int, VersionError> {
    match (Parse(left), Parse(right))
    case (Ok(a), Ok(b)) => Ok(CompareParts(a, b))
    case (Err(e), _) => Err(e)
    case (_, Err(e)) => Err(e)
  }

  /** `compare_versions` as the code runs it, over the character loop. */
  method CompareVersionsByLoop(left: string, right: string) returns (r: Result<int, VersionError>)
    ensures r == CompareVersions(left, right)
  {
    var a, b := Parse(left), Parse(right);
    if a.Err? {
      return Err(a.error);
    }
    if b.Err? {
      return Err(b.error);
    }
    if a.value.epoch != b.value.epoch {
      return Ok(if a.value.epoch < b.value.epoch then -1 else 1);
    }
    var c := Verrevcmp(a.value.upstream, b.value.upstream);
    if c == 0 {
      c := Verrevcmp(a.value.revision, b.value.revision);
    }
    return Ok(c);
  }

  lemma ComparePartsPreorder(a: Version, b: Version, c: Version)
    ensures CompareParts(a, a) == 0 && CompareParts(a, b) in {-1, 0, 1}
    ensures CompareParts(a, b) == -CompareParts(b, a)
    ensures CompareParts(a, b) <= 0 && CompareParts(b, c) <= 0 ==>
              CompareParts(a, c) <= 0 &&
              (CompareParts(a, c) == 0 ==> CompareParts(a, b) == 0 && CompareParts(b, c) == 0)
  {
    LexReflexive(Key(a.upstream));
    LexReflexive(Key(a.revision));
    LexAntisymmetric(Key(a.upstream), Key(b.upstream));
    LexAntisymmetric(Key(a.revision), Key(b.revision));
    if Lex(Key(a.upstream), Key(b.upstream)) <= 0 && Lex(Key(b.upstream), Key(c.upstream)) <= 0 {
      LexTransitive(Key(a.upstream), Key(b.upstream), Key(c.upstream));
    }
    if Lex(Key(a.revision), Key(b.revision)) <= 0 && Lex(Key(b.revision), Key(c.revision)) <= 0 {
      LexTransitive(Key(a.revision), Key(b.revision), Key(c.revision));
    }
  }

  predicate Parsable(s: string) {
    Parse(s).Ok?
  }

  /** On parsable versions `compare_versions` is a total preorder. */
  lemma VersionsPreorder(a: string, b: string, c: string)
    requires Parsable(a) && Parsable(b) && Parsable(c)
    ensures CompareVersions(a, a) == Ok(0)
    ensures CompareVersions(a, b).Ok? && CompareVersions(a, b).value in {-1, 0, 1}
    ensures CompareVersions(b, a) == Ok(-CompareVersions(a, b).value)
    ensures CompareVersions(a, b).value <= 0 && CompareVersions(b, c).value <= 0 ==>
              CompareVersions(a, c).value <= 0 &&
              (CompareVersions(a, c).value == 0 ==>
                CompareVersions(a, b).value == 0 && CompareVersions(b, c).value == 0)
  {
    hide Parse, Lex, Key;
    ComparePartsPreorder(Parse(a).value, Parse(b).value, Parse(c).value);
  }

  /******* Prereleases *******/

  predicate EndsWith(s: string, t: string) {
    |t| <= |s| && s[|s| - |t|..] == t
  }

  /** Length of the trailing run of digits. */
  function TrailingDigits(s: string): (n: nat)
    ensures n <= |s|
  {
    if s != "" && IsDigit(s[|s| - 1]) then 1 + TrailingDigits(s[..|s| - 1]) else 0
  }

  /** The three stages of a release tag, in their order. */
  function Stage(i: nat): (t: string)
    requires i < 3
    ensures |t| >= 2 && IsLetter(t[0]) && IsAscii(t)
    ensures forall k :: 0 <= k < |t| ==> IsLetter(t[k])
  {
    if i == 0 then "alpha" else if i == 1 then "beta" else "rc"
  }

  /** `head` ends in a digit and `text` is `head-stage`: the part of the pattern before the number. */
  predicate BeforeNumber(text: string, stage: string) {
    && EndsWith(text, "-" + stage)
    && |text| > |stage| + 1
    && IsDigit(text[|text| - |stage| - 2])
  }

  function Rewritten(text: string, stage: string, number: string): string
    requires |text| > |stage|
  {
    text[..|text| - |stage| - 1] + "~" + stage + number
  }

  /** The rewrite of `text` followed by its trailing `number`. */
  function TildeAt(text: string, number: string): string {
    if BeforeNumber(text, Stage(0)) then Rewritten(text, Stage(0), number)
    else if BeforeNumber(text, Stage(1)) then Rewritten(text, Stage(1), number)
    else if BeforeNumber(text, Stage(2)) then Rewritten(text, Stage(2), number)
    else text + number
  }

  /** `_PRERELEASE_RE.sub(_TILDE, s)` on a string without newlines. */
  function Tilde(s: string): string {
    var n := TrailingDigits(s);
    if n == 0 then s else TildeAt(s[..|s| - n], s[|s| - n..])
  }

  /** `compare_releases`. */
  function CompareReleases(left: string, right: string): Result<int, VersionError> {
    CompareVersions(Tilde(left), Tilde(right))
  }

  /** The order the no-downgrade rule rests on. */
  predicate Newer(a: string, b: string) {
    CompareReleases(a, b) == Ok(1)
  }

  lemma NewerIsStrictOrder(a: string, b: string, c: string)
    ensures !Newer(a, a)
    ensures Newer(a, b) ==> !Newer(b, a)
    ensures Newer(a, b) && Newer(b, c) ==> Newer(a, c)
    ensures CompareReleases(a, b).Ok? && CompareReleases(a, b).value <= 0 && Newer(c, b) ==> Newer(c, a)
  {
    hide CompareParts, Parse, Tilde;
    var x, y, z := Parse(Tilde(a)), Parse(Tilde(b)), Parse(Tilde(c));
    if x.Ok? {
      ComparePartsPreorder(x.value, x.value, x.value);
    }
    if x.Ok? && y.Ok? {
      ComparePartsPreorder(x.value, y.value, y.value);
    }
    if x.Ok? && y.Ok? && z.Ok? {
      ComparePartsPreorder(z.value, y.value, x.value);
      ComparePartsPreorder(y.value, z.value, x.value);
      ComparePartsPreorder(x.value, y.value, z.value);
      ComparePartsPreorder(x.value, z.value, y.value);
    }
  }

  /** Text that starts with a non-digit never joins the number before it. */
  lemma NumberBeforeText(s: string, e: string)
    requires e != "" && !IsDigit(e[0])
    ensures Num(s + e) == Num(s) && Rest(s + e) == Rest(s) + e
  {
    var n := Digits(s);
    assert (s + e)[..n] == s[..n] && (s + e)[n..] == s[n..] + e;
    DigitsSplit(s + e, n);
    assert Digits(s[n..] + e) == 0;
  }

  lemma KeyOfNumber(s: string)
    requires s != "" && IsDigit(s[0])
    ensures |Rest(s)| < |s| && Key(s) == [0, Num(s)] + Key(Rest(s))
  {
  }

  lemma KeyOfOther(s: string)
    requires s != "" && !IsDigit(s[0])
    ensures Key(s) == [Order(s[0])] + Key(s[1..])
  {
  }

  lemma KeyOfNothing(e: string)
    ensures Key("") + Key(e) == Key(e) && "" + e == e
  {
  }

  lemma Regroup(x: seq<int>, y: seq<int>, z: seq<int>)
    ensures x + (y + z) == (x + y) + z
  {
  }

  lemma {:induction false} KeyOfConcat(s: string, e: string)
    requires e != "" && !IsDigit(e[0])
    ensures Key(s + e) == Key(s) + Key(e)
    decreases |s|
  {
    hide Key, Num, Rest, Order;
    if s == "" {
      KeyOfNothing(e);
    } else if IsDigit(s[0]) {
      NumberBeforeText(s, e);
      KeyOfNumber(s);
      KeyOfNumber(s + e);
      KeyOfConcat(Rest(s), e);
      Regroup([0, Num(s)], Key(Rest(s)), Key(e));
    } else {
      KeyOfOther(s);
      KeyOfOther(s + e);
      assert (s + e)[1..] == s[1..] + e;
      KeyOfConcat(s[1..], e);
      Regroup([Order(s[0])], Key(s[1..]), Key(e));
    }
  }

  /** A tilde sorts below the end: `_verrevcmp(s + "~" + t, s)` is negative for all `s`. */
  lemma TildeBelow(s: string, t: string)
    ensures Lex(Key(s + ("~" + t)), Key(s)) == -1
  {
    KeyOfConcat(s, "~" + t);
    LexSamePrefix(Key(s), Key("~" + t), []);
    assert Key(s) + [] == Key(s);
  }

  /** Two texts appended to the same part compare as they do on their own. */
  lemma SameStem(s: string, e: string, f: string)
    requires e != "" && !IsDigit(e[0]) && f != "" && !IsDigit(f[0])
    ensures Lex(Key(s + e), Key(s + f)) == Lex(Key(e), Key(f))
  {
    KeyOfConcat(s, e);
    KeyOfConcat(s, f);
    LexSamePrefix(Key(s), Key(e), Key(f));
  }

  /******* Appending a tilde suffix changes the last part only *******/

  predicate NoSpaceNoColon(e: string) {
    && e != "" && IsAscii(e)
    && forall i :: 0 <= i < |e| ==> !IsSpace(e[i]) && e[i] != ':'
  }

  predicate Plain(e: string) {
    NoSpaceNoColon(e) && '-' !in e
  }

  lemma {:induction false} StripAppend(s: string, e: string)
    requires NoSpaceNoColon(e) && s != "" && !IsSpace(s[|s| - 1])
    ensures Strip(s) != "" && Strip(s + e) == Strip(s) + e && Strip(s)[|Strip(s)| - 1] == s[|s| - 1]
  {
    if IsSpace(s[0]) {
      assert (s + e)[1..] == s[1..] + e;
      StripAppend(s[1..], e);
    } else {
      assert (s + e)[|s + e| - 1] == e[|e| - 1];
    }
  }

  lemma {:induction false} FirstAppend(s: string, e: string, c: char)
    requires forall i :: 0 <= i < |e| ==> e[i] != c
    ensures First(s + e, c) == if First(s, c) < |s| then First(s, c) else |s + e|
  {
    if s == "" {
      assert s + e == e;
      FirstAbsent(e, c);
    } else if s[0] != c {
      assert (s + e)[1..] == s[1..] + e;
      FirstAppend(s[1..], e, c);
    }
  }

  lemma {:induction false} FirstAbsent(e: string, c: char)
    requires forall i :: 0 <= i < |e| ==> e[i] != c
    ensures First(e, c) == |e|
  {
    if e != "" {
      FirstAbsent(e[1..], c);
    }
  }

  lemma {:induction false} AfterLastAppend(s: string, e: string, c: char)
    requires forall i :: 0 <= i < |e| ==> e[i] != c
    ensures AfterLast(s + e, c) == AfterLast(s, c)
    decreases |e|
  {
    if e == "" {
      assert s + e == s;
    } else {
      var e' := e[..|e| - 1];
      assert (s + e)[..|s + e| - 1] == s + e';
      AfterLastAppend(s, e', c);
    }
  }

  function Extended(v: Version, e: string): Version {
    if v.revision == "" then v.(upstream := v.upstream + e) else v.(revision := v.revision + e)
  }

  lemma RevisionAppend(epoch: nat, rest: string, e: string)
    requires SplitRevision(epoch, rest).Ok? && Plain(e) && rest != "" && IsDigit(rest[|rest| - 1])
    ensures SplitRevision(epoch, rest + e) == Ok(Extended(SplitRevision(epoch, rest).value, e))
  {
    AfterLastAppend(rest, e, '-');
    var dash := AfterLast(rest, '-');
    assert dash < |rest|;
    if dash > 0 {
      assert (rest + e)[..dash - 1] == rest[..dash - 1];
      assert (rest + e)[dash..] == rest[dash..] + e;
    }
  }

  lemma EpochAppend(text: string, e: string)
    requires NoSpaceNoColon(e)
    ensures EpochOf(text + e) == EpochOf(text) && AfterEpoch(text + e) == AfterEpoch(text) + e
  {
    FirstAppend(text, e, ':');
    var colon := First(text, ':');
    if colon < |text| {
      assert (text + e)[..colon] == text[..colon];
      assert (text + e)[colon + 1..] == text[colon + 1..] + e;
    }
  }

  lemma SplitAppend(s: string, e: string)
    requires Parsable(s) && Plain(e) && s != "" && IsDigit(s[|s| - 1])
    ensures Parse(s + e) == Ok(Extended(Parse(s).value, e))
  {
    StripAppend(s, e);
    EpochAppend(Strip(s), e);
    RevisionAppend(EpochOf(Strip(s)), AfterEpoch(Strip(s)), e);
  }

  lemma CompareExtended(v: Version, e: string, f: string)
    requires e != "" && !IsDigit(e[0]) && f != "" && !IsDigit(f[0])
    ensures CompareParts(Extended(v, e), Extended(v, f)) == Lex(Key(e), Key(f))
    ensures v.upstream != "" && e[0] == '~' ==> CompareParts(Extended(v, e), v) == -1
  {
    hide Lex, Key;
    LexReflexive(Key(v.upstream));
    LexReflexive(Key(v.revision));
    if v.revision == "" {
      SameStem(v.upstream, e, f);
      if e[0] == '~' {
        TildeBelow(v.upstream, e[1..]);
        assert "~" + e[1..] == e;
      }
    } else {
      SameStem(v.revision, e, f);
      if e[0] == '~' {
        TildeBelow(v.revision, e[1..]);
        assert "~" + e[1..] == e;
      }
    }
  }

  predicate Number(n: string) {
    n != "" && AllDigits(n)
  }

  /******* A version written out reads back *******/

  function Remainder(upstream: string, revision: Option<string>): string {
    if revision.Some? then upstream + "-" + revision.value else upstream
  }

  /** `[epoch:]upstream[-revision]`, as section 5.6.12 of the Debian Policy Manual writes it. */
  function Written(epoch: string, upstream: string, revision: Option<string>): string {
    if epoch == "" then Remainder(upstream, revision) else epoch + ":" + Remainder(upstream, revision)
  }

  predicate Trimmed(s: string) {
    s != "" && !IsSpace(s[0]) && !IsSpace(s[|s| - 1])
  }

  /** A version whose three parts can be told apart: without an epoch it does not start with a number and a colon. */
  predicate WellWritten(epoch: string, upstream: string, revision: Option<string>) {
    var rest := Remainder(upstream, revision);
    && upstream != "" && '-' !in (if revision.Some? then revision.value else upstream)
    && IsAscii(Written(epoch, upstream, revision)) && Trimmed(Written(epoch, upstream, revision))
    && if epoch == "" then !NumberAndColon(rest) else Number(epoch)
  }

  predicate NumberAndColon(s: string) {
    0 < Digits(s) < |s| && s[Digits(s)] == ':'
  }

  lemma NoNumberNoEpoch(s: string)
    ensures HasEpoch(s) <==> NumberAndColon(s)
  {
    if HasEpoch(s) {
      DigitsSplit(s, First(s, ':'));
      assert s[First(s, ':')..][0] == ':';
    } else if NumberAndColon(s) {
      var n := Digits(s);
      assert s == s[..n] + [':'] + s[n + 1..];
      FirstAfter(s[..n], s[n + 1..], ':');
    }
  }

  lemma {:induction false} FirstAfter(s: string, t: string, c: char)
    requires forall i :: 0 <= i < |s| ==> s[i] != c
    ensures First(s + [c] + t, c) == |s|
  {
    if s != "" {
      assert (s + [c] + t)[1..] == s[1..] + [c] + t;
      FirstAfter(s[1..], t, c);
    }
  }

  lemma EpochReadsBack(epoch: string, rest: string)
    requires Number(epoch)
    ensures EpochOf(epoch + ":" + rest) == Value(epoch) && AfterEpoch(epoch + ":" + rest) == rest
  {
    var text := epoch + ":" + rest;
    FirstAfter(epoch, rest, ':');
    assert text[..|epoch|] == epoch && text[|epoch| + 1..] == rest;
  }

  lemma LastDash(upstream: string, revision: string)
    requires '-' !in revision
    ensures AfterLast(upstream + "-" + revision, '-') == |upstream| + 1
  {
    AfterLastAppend(upstream + "-", revision, '-');
  }

  lemma RevisionReadsBack(epoch: nat, upstream: string, revision: Option<string>)
    requires upstream != "" && '-' !in (if revision.Some? then revision.value else upstream)
    ensures SplitRevision(epoch, Remainder(upstream, revision))
            == Ok(Version(epoch, upstream, if revision.Some? then revision.value else ""))
  {
    hide AfterLast;
    if revision.Some? {
      LastDash(upstream, revision.value);
      var rest := Remainder(upstream, revision);
      assert rest[..|upstream|] == upstream && rest[|upstream| + 1..] == revision.value;
    } else {
      NoDash(upstream);
    }
  }

  lemma NoDash(upstream: string)
    requires '-' !in upstream
    ensures AfterLast(upstream, '-') == 0
  {
    AfterLastAppend("", upstream, '-');
    assert "" + upstream == upstream;
  }

  /**
   Splitting undoes writing: the first colon after a number ends the epoch, the last
   dash starts the revision, and a missing epoch is 0.
   */
  lemma SplitReadsBack(epoch: string, upstream: string, revision: Option<string>)
    requires WellWritten(epoch, upstream, revision)
    ensures Parse(Written(epoch, upstream, revision))
            == Ok(Version(Value(if AllDigits(epoch) then epoch else ""), upstream,
                          if revision.Some? then revision.value else ""))
  {
    hide Strip, EpochOf, AfterEpoch, SplitRevision, NumberAndColon, Value, IsAscii, Trimmed;
    var rest := Remainder(upstream, revision);
    TrimmedIsStripped(Written(epoch, upstream, revision));
    RevisionReadsBack(Value(if AllDigits(epoch) then epoch else ""), upstream, revision);
    EmptyIsZero();
    if epoch == "" {
      NoEpochReadsBack(rest);
    } else {
      EpochReadsBack(epoch, rest);
    }
  }

  lemma TrimmedIsStripped(s: string)
    requires Trimmed(s)
    ensures Strip(s) == s && s != ""
  {
  }

  lemma NoEpochReadsBack(rest: string)
    requires !NumberAndColon(rest)
    ensures EpochOf(rest) == 0 && AfterEpoch(rest) == rest
  {
    NoNumberNoEpoch(rest);
  }

  /** White space around a version does not matter, and each of the four refusals has its own reason. */
  lemma SplitRefuses(s: string, epoch: string, revision: string)
    requires IsAscii(s)
    ensures Strip(s) == "" ==> Parse(s) == Err(Empty)
    ensures Number(epoch) && Strip(s) == epoch + ":" ==> Parse(s) == Err(EpochOnly)
    ensures '-' !in revision && Strip(s) == "-" + revision ==> Parse(s) == Err(EmptyUpstream)
  {
    if Number(epoch) && Strip(s) == epoch + ":" {
      EpochReadsBack(epoch, "");
      assert epoch + ":" + "" == epoch + ":";
    } else if '-' !in revision && Strip(s) == "-" + revision {
      NoNumberNoEpoch(Strip(s));
      LastDash("", revision);
      assert "" + "-" + revision == "-" + revision;
    }
  }

  lemma OnlyAsciiParses(s: string, k: nat)
    requires k < |s| && s[k] >= '\U{0080}'
    ensures Parse(s) == Err(NotAscii)
  {
    hide Split;
  }

  predicate Blank(s: string) {
    forall i :: 0 <= i < |s| ==> s[i] == ' ' || '\t' <= s[i] <= '\r' || '\U{001c}' <= s[i] <= '\U{001f}'
  }

  lemma {:induction false} StripsLeft(pad: string, s: string)
    requires Blank(pad)
    ensures StripLeft(pad + s) == StripLeft(s)
  {
    if pad == "" {
      assert pad + s == s;
    } else {
      assert (pad + s)[1..] == pad[1..] + s;
      StripsLeft(pad[1..], s);
    }
  }

  lemma {:induction false} StripsRight(s: string, pad: string)
    requires Blank(pad)
    ensures StripRight(s + pad) == StripRight(s)
    decreases |pad|
  {
    if pad == "" {
      assert s + pad == s;
    } else {
      assert (s + pad)[..|s + pad| - 1] == s + pad[..|pad| - 1];
      StripsRight(s, pad[..|pad| - 1]);
    }
  }

  /** Stripping takes white space off both ends, and nothing else. */
  lemma StripsBlanks(left: string, s: string, right: string)
    requires Blank(left) && Blank(right) && Trimmed(s)
    ensures Strip(left + s + right) == s
  {
    assert left + s + right == left + (s + right);
    StripsLeft(left, s + right);
    assert (s + right)[0] == s[0];
    assert StripLeft(s + right) == s + right;
    StripsRight(s, right);
  }

  /** Parts in the order the policy manual gives them: the epoch decides, then the upstream, then the revision. */
  lemma PartsDecideInOrder(e: string, u: string, r: Option<string>, e': string, u': string, r': Option<string>)
    requires WellWritten(e, u, r) && WellWritten(e', u', r')
    ensures var s, s' := Written(e, u, r), Written(e', u', r');
            var epoch, epoch' := if e == "" then 0 else Value(e), if e' == "" then 0 else Value(e');
            var upstreams := Lex(Key(u), Key(u'));
            var revisions := Lex(Key(if r.Some? then r.value else ""), Key(if r'.Some? then r'.value else ""));
            && (epoch < epoch' ==> CompareVersions(s, s') == Ok(-1))
            && (epoch > epoch' ==> CompareVersions(s, s') == Ok(1))
            && (epoch == epoch' && upstreams != 0 ==> CompareVersions(s, s') == Ok(upstreams))
            && (epoch == epoch' && upstreams == 0 ==> CompareVersions(s, s') == Ok(revisions))
  {
    hide Parse, Lex, Key, Value;
    SplitReadsBack(e, u, r);
    SplitReadsBack(e', u', r');
    EmptyIsZero();
  }

  lemma EmptyIsZero()
    ensures AllDigits("") && Value("") == 0
  {
  }

  /** So what bare upstreams compare as, if unequal, is the answer whatever revisions follow. */
  lemma UpstreamsDecide(u: string, u': string, r: Option<string>, r': Option<string>)
    requires WellWritten("", u, None) && WellWritten("", u', None)
    requires WellWritten("", u, r) && WellWritten("", u', r')
    requires CompareVersions(u, u') != Ok(0)
    ensures CompareVersions(Written("", u, r), Written("", u', r')) == CompareVersions(u, u')
  {
    hide Lex, Key, CompareVersions;
    LexReflexive(Key(""));
    PartsDecideInOrder("", u, None, "", u', None);
    PartsDecideInOrder("", u, r, "", u', r');
  }

  /******* What the rewrite does to a tagged prerelease *******/

  lemma {:induction false} TrailingOf(s: string, n: string)
    requires AllDigits(n) && (s == "" || !IsDigit(s[|s| - 1]))
    ensures TrailingDigits(s + n) == |n|
    decreases |n|
  {
    if n == "" {
      assert s + n == s;
    } else {
      assert (s + n)[..|s + n| - 1] == s + n[..|n| - 1];
      TrailingOf(s, n[..|n| - 1]);
    }
  }

  lemma StagesDiffer(i: nat, k: nat)
    requires i < 3 && k < 3
    ensures Stage(i)[|Stage(i)| - 2] == Stage(k)[|Stage(k)| - 2] <==> i == k
  {
    assert Stage(0)[3] == 'h' && Stage(1)[2] == 't' && Stage(2)[0] == 'r';
  }

  /** A text that ends in one stage ends in no other. */
  lemma StageIsUnique(base: string, i: nat, k: nat)
    requires i < 3 && k < 3
    requires base != "" && IsDigit(base[|base| - 1])
    ensures BeforeNumber(base + "-" + Stage(i), Stage(k)) <==> i == k
  {
    hide Stage;
    var text, t, u := base + "-" + Stage(i), Stage(i), Stage(k);
    StagesDiffer(i, k);
    assert text[|base|..] == "-" + t && text[|text| - 2] == t[|t| - 2];
    if EndsWith(text, "-" + u) {
      assert text[|text| - 2] == text[|text| - |"-" + u|..][|u| - 1] == ("-" + u)[|u| - 1] == u[|u| - 2];
    }
  }

  lemma RewrittenTag(base: string, stage: string, n: string)
    requires base != ""
    ensures Rewritten(base + "-" + stage, stage, n) == base + ("~" + stage + n)
  {
    assert (base + "-" + stage)[..|base|] == base;
  }

  lemma RewriteOfTag(base: string, stage: nat, n: string)
    requires stage < 3 && base != "" && IsDigit(base[|base| - 1])
    ensures TildeAt(base + "-" + Stage(stage), n) == base + (StageText(stage) + n)
  {
    hide BeforeNumber, Stage;
    var text := base + "-" + Stage(stage);
    StageIsUnique(base, stage, 0);
    StageIsUnique(base, stage, 1);
    StageIsUnique(base, stage, 2);
    assert TildeAt(text, n) == Rewritten(text, Stage(stage), n);
    RewrittenTag(base, Stage(stage), n);
  }

  lemma TildeOfTag(base: string, stage: nat, n: string)
    requires stage < 3 && base != "" && IsDigit(base[|base| - 1]) && Number(n)
    ensures Tilde(base + "-" + Stage(stage) + n) == base + (StageText(stage) + n)
  {
    var text := base + "-" + Stage(stage);
    TrailingOf(text, n);
    assert (text + n)[..|text|] == text && (text + n)[|text|..] == n;
    RewriteOfTag(base, stage, n);
  }

  lemma NumbersCompare(n: string, m: string)
    requires Number(n) && Number(m)
    ensures Lex(Key(n), Key(m)) == Sign(Value(n) - Value(m))
  {
    hide Lex, Key, Value;
    assert n[..|n|] == n && m[..|m|] == m;
    LexReflexive(Key(""));
    DigitsSplit(n, |n|);
    DigitsSplit(m, |m|);
    NumberDecides(n, m);
  }

  function StageText(stage: nat): string
    requires stage < 3
  {
    "~" + Stage(stage)
  }

  lemma KeyOfStage(i: nat, n: string)
    requires i < 3
    ensures var k := Key(StageText(i) + n);
            |k| >= 2 && Head(k) == -1 && Head(Tail(k)) == Order(Stage(i)[0])
  {
    var x := StageText(i) + n;
    assert x[1..][0] == Stage(i)[0];
    assert Key(x) == [-1] + Key(x[1..]);
    assert Key(x[1..]) == [Order(x[1])] + Key(x[1..][1..]);
  }

  lemma StageOrder(i: nat, n: string, j: nat, m: string)
    requires i < 3 && j < 3 && Number(n) && Number(m)
    ensures Lex(Key(StageText(i) + n), Key(StageText(j) + m)) ==
            if i != j then Sign(i - j) else Sign(Value(n) - Value(m))
  {
    if i != j {
      KeyOfStage(i, n);
      KeyOfStage(j, m);
      var x, y := Key(StageText(i) + n), Key(StageText(j) + m);
      assert Lex(x, y) == Lex(Tail(x), Tail(y));
      assert Stage(0)[0] == 'a' && Stage(1)[0] == 'b' && Stage(2)[0] == 'r';
    } else {
      KeyOfText(StageText(i), n);
      KeyOfText(StageText(j), m);
      LexSamePrefix(Key(StageText(i)), Key(n), Key(m));
      NumbersCompare(n, m);
    }
  }

  /** Text without digits before a number. */
  lemma {:induction false} KeyOfText(t: string, n: string)
    requires forall i :: 0 <= i < |t| ==> !IsDigit(t[i])
    requires Number(n)
    ensures Key(t + n) == Key(t) + Key(n)
  {
    if t == "" {
      assert t + n == n;
    } else {
      assert (t + n)[1..] == t[1..] + n;
      KeyOfText(t[1..], n);
    }
  }

  lemma TagParses(base: string, i: nat, n: string)
    requires i < 3 && Number(n)
    requires Parsable(base) && base != "" && IsDigit(base[|base| - 1])
    ensures Parse(Tilde(base + "-" + Stage(i) + n)) == Ok(Extended(Parse(base).value, StageText(i) + n))
    ensures Parse(base).value.upstream != ""
  {
    hide Tilde, Plain, StageText, Stage, Parse, Extended;
    TildeOfTag(base, i, n);
    SuffixIsPlain(i, n);
    SplitAppend(base, StageText(i) + n);
    UpstreamIsThere(base);
  }

  lemma SuffixIsPlain(i: nat, n: string)
    requires i < 3 && Number(n)
    ensures Plain(StageText(i) + n)
  {
    hide Stage;
    var e, t := StageText(i) + n, Stage(i);
    forall k | 0 <= k < |e|
      ensures e[k] < '\U{0080}' && !IsSpace(e[k]) && e[k] != ':' && e[k] != '-'
    {
      assert k == 0 || (k <= |t| && e[k] == t[k - 1]) || (k > |t| && e[k] == n[k - |t| - 1]);
    }
  }

  lemma UpstreamIsThere(s: string)
    requires Parsable(s)
    ensures Parse(s).value.upstream != ""
  {
    hide Strip, EpochOf, AfterEpoch, IsAscii;
  }

  /**
   Prerelease ordering: for a parsable base that ends in a digit and is no
   prerelease itself, alpha sorts below beta below rc below the base, and two
   tags of one stage compare as their numbers.
   */
  lemma PrereleaseOrder(base: string, i: nat, n: string, j: nat, m: string)
    requires i < 3 && j < 3 && Number(n) && Number(m)
    requires Parsable(base) && base != "" && IsDigit(base[|base| - 1]) && Tilde(base) == base
    ensures CompareReleases(base + "-" + Stage(i) + n, base + "-" + Stage(j) + m) ==
            Ok(if i != j then Sign(i - j) else Sign(Value(n) - Value(m)))
    ensures CompareReleases(base + "-" + Stage(i) + n, base) == Ok(-1)
    ensures Newer(base, base + "-" + Stage(i) + n)
  {
    var e, f, v := StageText(i) + n, StageText(j) + m, Parse(base).value;
    TagParses(base, i, n);
    TagParses(base, j, m);
    CompareExtended(v, e, f);
    StageOrder(i, n, j, m);
    ComparePartsPreorder(Extended(v, e), v, v);
  }

  /** A base that ends in a digit, a stage, and a number. */
  predicate Tagged(s: string, base: string, i: nat, n: string)
    requires i < 3
  {
    base != "" && IsDigit(base[|base| - 1]) && Number(n) && s == base + "-" + Stage(i) + n
  }

  lemma TagShape(text: string, i: nat, n: string) returns (base: string)
    requires i < 3 && BeforeNumber(text, Stage(i)) && Number(n)
    ensures Tagged(text + n, base, i, n)
  {
    hide Stage, Number;
    base := text[..|text| - |Stage(i)| - 1];
    assert text == base + ("-" + Stage(i));
    assert base + ("-" + Stage(i)) == base + "-" + Stage(i);
  }

  /** The rewrite changes nothing but tagged prereleases. */
  lemma OnlyTagsAreRewritten(s: string) returns (base: string, i: nat, n: string)
    requires Tilde(s) != s
    ensures i < 3 && Tagged(s, base, i, n)
  {
    hide BeforeNumber, Stage, Tagged;
    var k := TrailingDigits(s);
    TrailingIsNumber(s);
    var text := s[..|s| - k];
    n := s[|s| - k..];
    assert text + n == s;
    i := if BeforeNumber(text, Stage(0)) then 0 else if BeforeNumber(text, Stage(1)) then 1 else 2;
    base := TagShape(text, i, n);
  }

  lemma {:induction false} TrailingIsNumber(s: string)
    ensures forall k :: |s| - TrailingDigits(s) <= k < |s| ==> IsDigit(s[k])
  {
    if s != "" && IsDigit(s[|s| - 1]) {
      var t := s[..|s| - 1];
      TrailingIsNumber(t);
      assert forall k :: 0 <= k < |t| ==> s[k] == t[k];
    }
  }

  /**
   The floors are judged without the rewrite: a prerelease of a required release is not
   below it, although it is below it as a release.
   */
  lemma PrereleaseMeetsItsFloor(base: string, i: nat, n: string)
    requires i < 3 && Number(n)
    requires Parsable(base) && base != "" && IsDigit(base[|base| - 1])
    ensures CompareVersions(base + "-" + Stage(i) + n, base) == Ok(1)
  {
    hide Stage, Strip, EpochOf, AfterEpoch, SplitRevision, CompareParts, IsAscii;
    var tag := Stage(i) + n;
    TagHasNoDash(i, n);
    assert base + "-" + Stage(i) + n == base + ("-" + tag);
    TaggedParse(base, tag);
    TaggedParts(EpochOf(Strip(base)), AfterEpoch(Strip(base)), tag);
  }

  /** A tag behind a version becomes its revision, and all of the version the upstream. */
  lemma TaggedParse(base: string, tag: string)
    requires Parsable(base) && base != "" && IsDigit(base[|base| - 1])
    requires '-' !in tag && NoSpaceNoColon("-" + tag)
    ensures Parse(base + ("-" + tag)) == Ok(Version(EpochOf(Strip(base)), AfterEpoch(Strip(base)), tag))
    ensures AfterEpoch(Strip(base)) != ""
    ensures SplitRevision(EpochOf(Strip(base)), AfterEpoch(Strip(base))) == Parse(base)
  {
    hide EpochOf, AfterEpoch, AfterLast, Strip;
    StripAppend(base, "-" + tag);
    EpochAppend(Strip(base), "-" + tag);
    var rest := AfterEpoch(Strip(base));
    LastDash(rest, tag);
    assert rest + ("-" + tag) == rest + "-" + tag;
    assert (rest + "-" + tag)[..|rest|] == rest && (rest + "-" + tag)[|rest| + 1..] == tag;
  }

  lemma TagHasNoDash(i: nat, n: string)
    requires i < 3 && Number(n)
    ensures var tag := Stage(i) + n;
            && '-' !in tag && NoSpaceNoColon("-" + tag) && tag != "" && IsLetter(tag[0])
  {
    hide Stage;
    var t, tag := Stage(i), Stage(i) + n;
    forall k | 0 <= k < |tag|
      ensures tag[k] < '\U{0080}' && !IsSpace(tag[k]) && tag[k] != ':' && tag[k] != '-'
    {
      assert if k < |t| then tag[k] == t[k] else tag[k] == n[k - |t|];
    }
  }

  lemma TaggedParts(epoch: nat, rest: string, tag: string)
    requires SplitRevision(epoch, rest).Ok? && rest != "" && tag != "" && IsLetter(tag[0])
    ensures CompareParts(Version(epoch, rest, tag), SplitRevision(epoch, rest).value) == 1
  {
    var dash := AfterLast(rest, '-');
    if dash == 0 {
      LexReflexive(Key(rest));
      assert Key(tag) == [Order(tag[0])] + Key(tag[1..]);
    } else {
      var upstream, e := rest[..dash - 1], rest[dash - 1..];
      assert rest == upstream + e && e[0] == '-';
      KeyOfConcat(upstream, e);
      LexSamePrefix(Key(upstream), Key(e), []);
      assert Key(upstream) + [] == Key(upstream);
      assert Key(e) == [Order('-')] + Key(e[1..]);
    }
  }

  /******* The policy *******/

  datatype Verdict = Install | UpToDate | Refuse

  /** `check_version_policy` with the reason dropped: install, nothing to do, or refused. */
  function CheckVersionPolicy(candidate: string, current: string, floors: seq<string>): Verdict {
    match CompareReleases(candidate, current)
    case Err(_) => Refuse
    case Ok(order) =>
      if order < 0 then Refuse
      else if order == 0 then UpToDate
      else if forall f | f in floors :: AboveFloor(candidate, f) then Install
      else Refuse
  }

  predicate AboveFloor(candidate: string, floor: string) {
    Strip(floor) == "" ||
    (CompareVersions(candidate, Strip(floor)).Ok? && CompareVersions(candidate, Strip(floor)).value >= 0)
  }

  /** A bundle below any floor is not installed, nor one that cannot be ordered against it. */
  lemma FloorsHold(candidate: string, current: string, floors: seq<string>, floor: string)
    requires CheckVersionPolicy(candidate, current, floors) == Install && floor in floors
    ensures Strip(floor) != "" ==> CompareVersions(candidate, Strip(floor)).Ok?
    ensures Trimmed(floor) ==> CompareVersions(candidate, floor) == Ok(0) || CompareVersions(candidate, floor) == Ok(1)
  {
    assert AboveFloor(candidate, floor);
    if Trimmed(floor) {
      StripsBlanks("", floor, "");
      assert "" + floor + "" == floor;
      if CompareVersions(candidate, floor).Ok? {
        ComparePartsPreorder(Parse(candidate).value, Parse(floor).value, Parse(floor).value);
      }
    }
  }

  /** What is newer and at or above every floor, or faced with blank ones, is installed. */
  lemma MetFloorsInstall(candidate: string, current: string, floors: seq<string>)
    requires Newer(candidate, current)
    requires forall f | f in floors :: Blank(f) || (Trimmed(f) && (CompareVersions(candidate, f) == Ok(0)
                                                                   || CompareVersions(candidate, f) == Ok(1)))
    ensures CheckVersionPolicy(candidate, current, floors) == Install
  {
    hide Parse, Tilde, CompareVersions;
    forall f | f in floors
      ensures AboveFloor(candidate, f)
    {
      if Blank(f) {
        StripsLeft(f, "");
        assert f + "" == f;
      } else {
        StripsBlanks("", f, "");
        assert "" + f + "" == f;
      }
    }
  }
}
