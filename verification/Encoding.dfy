/**
 The two encodings that must keep different things apart: the message a results upload
 signs (agent/result_signing.py) and the NATS subject of a tenant's jobs (agent/worker.py).
 */
module Encoding {
  import opened Prelude
  import opened Versions

  /******* Lines *******/

  predicate Free(s: string, c: char) {
    c !in s
  }

  /** Text between occurrences of a separator. */
  function Pieces(s: string, sep: char): (r: seq<string>)
    ensures r != []
  {
    if s == "" then [""]
    else
      var rest := Pieces(s[1..], sep);
      if s[0] == sep then [""] + rest else [[s[0]] + rest[0]] + rest[1..]
  }

  function Join(lines: seq<string>, sep: char): string
    requires lines != []
  {
    if |lines| == 1 then lines[0] else lines[0] + [sep] + Join(lines[1..], sep)
  }

  lemma {:induction false} PiecesOfFree(s: string, sep: char)
    requires Free(s, sep)
    ensures Pieces(s, sep) == [s]
  {
    if s != "" {
      PiecesOfFree(s[1..], sep);
      assert s == [s[0]] + s[1..];
    }
  }

  lemma {:induction false} PiecesAppend(s: string, t: string, sep: char)
    ensures Pieces(s + [sep] + t, sep) == Pieces(s, sep) + Pieces(t, sep)
  {
    if s == "" {
      assert (s + [sep] + t)[1..] == t;
    } else {
      assert (s + [sep] + t)[1..] == s[1..] + [sep] + t;
      PiecesAppend(s[1..], t, sep);
    }
  }

  lemma {:induction false} MorePieces(s: string, sep: char)
    requires !Free(s, sep)
    ensures |Pieces(s, sep)| > 1
  {
    if s[0] != sep {
      assert s == [s[0]] + s[1..];
      MorePieces(s[1..], sep);
    }
  }

  /** Splitting undoes joining exactly when no line holds the separator; otherwise there are too many pieces. */
  lemma {:induction false} PiecesOfJoin(lines: seq<string>, sep: char)
    requires lines != []
    ensures |Pieces(Join(lines, sep), sep)| >= |lines|
    ensures |Pieces(Join(lines, sep), sep)| == |lines| <==> forall i :: 0 <= i < |lines| ==> Free(lines[i], sep)
    ensures |Pieces(Join(lines, sep), sep)| == |lines| ==> Pieces(Join(lines, sep), sep) == lines
  {
    if Free(lines[0], sep) {
      PiecesOfFree(lines[0], sep);
    } else {
      MorePieces(lines[0], sep);
    }
    if |lines| > 1 {
      PiecesAppend(lines[0], Join(lines[1..], sep), sep);
      PiecesOfJoin(lines[1..], sep);
      assert forall i :: 1 <= i < |lines| ==> lines[i] == lines[1..][i - 1];
    }
  }

  /******* Decimal numbers *******/

  function NatText(n: nat): (s: string)
    ensures s != "" && AllDigits(s)
  {
    if n < 10 then ['0' + n as char] else NatText(n / 10) + ['0' + (n % 10) as char]
  }

  function IntText(i: int): string {
    if i < 0 then "-" + NatText(-i) else NatText(i)
  }

  lemma {:induction false} NatRoundTrip(n: nat)
    ensures Value(NatText(n)) == n
  {
    if n >= 10 {
      NatRoundTrip(n / 10);
    }
  }

  /** The number written in decimal, `None` for any other text. */
  function ParseInt(s: string): Option<int> {
    if s != "" && AllDigits(s) then Some(Value(s))
    else if |s| > 1 && s[0] == '-' && AllDigits(s[1..]) then Some(0 - Value(s[1..]))
    else None
  }

  lemma IntRoundTrip(i: int)
    ensures ParseInt(IntText(i)) == Some(i) && Free(IntText(i), '\n')
  {
    if i < 0 {
      NatRoundTrip(-i);
      assert IntText(i)[1..] == NatText(-i) && !IsDigit(IntText(i)[0]);
    } else {
      NatRoundTrip(i);
    }
  }

  /******* The signed message *******/

  datatype SignedUpload = SignedUpload(agent: string, job: string, run: Option<string>, exit: int,
                                       attempt: Option<int>, sha256: string)

  const DOMAIN := "shapoclyack-run-archive-v1"

  function RunText(u: SignedUpload): string {
    if u.run.Some? then u.run.value else ""
  }

  function AttemptText(u: SignedUpload): string {
    if u.attempt.Some? then IntText(u.attempt.value) else ""
  }

  function Line(tag: string, text: string): string {
    tag + text
  }

  function MessageLines(u: SignedUpload): seq<string> {
    [DOMAIN, Line("agent=", u.agent), Line("job=", u.job), Line("run=", RunText(u)), Line("exit=", IntText(u.exit)),
     Line("attempt=", AttemptText(u)), Line("sha256=", u.sha256)]
  }

  /** `signing_message`, before it is encoded as UTF-8. */
  function SigningMessage(u: SignedUpload): string {
    Join(MessageLines(u), '\n')
  }

  /** The rest of a line that starts with a tag. */
  function After(tag: string, line: string): Option<string> {
    if |tag| <= |line| && line[..|tag|] == tag then Some(line[|tag|..]) else None
  }

  function ReadLines(agent: Option<string>, job: Option<string>, run: Option<string>, exit: Option<string>,
                     attempt: Option<string>, sha256: Option<string>): Option<SignedUpload>
  {
    if agent.None? || job.None? || run.None? || exit.None? || attempt.None? || sha256.None? then None
    else if ParseInt(exit.value).None? || (attempt.value != "" && ParseInt(attempt.value).None?) then None
    else Some(SignedUpload(agent.value, job.value, run, ParseInt(exit.value).value, ParseInt(attempt.value),
                           sha256.value))
  }

  /** What a message says, read line by line. */
  function ReadMessage(m: string): Option<SignedUpload> {
    var l := Pieces(m, '\n');
    if |l| != 7 || l[0] != DOMAIN then None
    else ReadLines(After("agent=", l[1]), After("job=", l[2]), After("run=", l[3]), After("exit=", l[4]),
                   After("attempt=", l[5]), After("sha256=", l[6]))
  }

  /** A missing run id signs like an empty one. */
  function Signed(u: SignedUpload): SignedUpload {
    u.(run := Some(RunText(u)))
  }

  predicate OneLineFields(u: SignedUpload) {
    Free(u.agent, '\n') && Free(u.job, '\n') && Free(RunText(u), '\n') && Free(u.sha256, '\n')
  }

  lemma AfterTag(tag: string, text: string)
    ensures After(tag, Line(tag, text)) == Some(text)
  {
  }

  lemma TextDecidesLine(tag: string, text: string)
    requires Free(tag, '\n')
    ensures Free(Line(tag, text), '\n') <==> Free(text, '\n')
  {
  }

  lemma NumbersRead(u: SignedUpload)
    ensures ParseInt(IntText(u.exit)) == Some(u.exit) && Free(IntText(u.exit), '\n')
    ensures ParseInt(AttemptText(u)) == u.attempt && (AttemptText(u) == "" <==> u.attempt.None?)
    ensures Free(AttemptText(u), '\n')
  {
    IntRoundTrip(u.exit);
    if u.attempt.Some? {
      IntRoundTrip(u.attempt.value);
    }
  }

  lemma TagsRead(u: SignedUpload)
    ensures var l := MessageLines(u);
            ReadLines(After("agent=", l[1]), After("job=", l[2]), After("run=", l[3]), After("exit=", l[4]),
                      After("attempt=", l[5]), After("sha256=", l[6])) == Some(Signed(u))
  {
    hide After, Line, IntText, ParseInt, RunText, AttemptText;
    AfterTag("agent=", u.agent);
    AfterTag("job=", u.job);
    AfterTag("run=", RunText(u));
    AfterTag("exit=", IntText(u.exit));
    AfterTag("attempt=", AttemptText(u));
    AfterTag("sha256=", u.sha256);
    NumbersRead(u);
  }

  lemma TagsAreFree()
    ensures Free(DOMAIN, '\n') && Free("agent=", '\n') && Free("job=", '\n') && Free("run=", '\n')
    ensures Free("exit=", '\n') && Free("attempt=", '\n') && Free("sha256=", '\n')
  {
  }

  lemma FieldsDecideLines(u: SignedUpload)
    ensures |MessageLines(u)| == 7 && MessageLines(u)[0] == DOMAIN
    ensures (forall i :: 0 <= i < |MessageLines(u)| ==> Free(MessageLines(u)[i], '\n')) <==> OneLineFields(u)
  {
    hide Free, Line, IntText, RunText, AttemptText;
    TagsAreFree();
    TextDecidesLine("agent=", u.agent);
    TextDecidesLine("job=", u.job);
    TextDecidesLine("run=", RunText(u));
    TextDecidesLine("exit=", IntText(u.exit));
    TextDecidesLine("attempt=", AttemptText(u));
    TextDecidesLine("sha256=", u.sha256);
    NumbersRead(u);
    var l := MessageLines(u);
    assert (forall i :: 0 <= i < 7 ==> Free(l[i], '\n'))
        <==> Free(l[0], '\n') && Free(l[1], '\n') && Free(l[2], '\n') && Free(l[3], '\n')
             && Free(l[4], '\n') && Free(l[5], '\n') && Free(l[6], '\n');
  }

  /** The message can be read back exactly when no field holds a newline; otherwise it is no message at all. */
  lemma MessageRoundTrip(u: SignedUpload)
    ensures ReadMessage(SigningMessage(u)) == if OneLineFields(u) then Some(Signed(u)) else None
  {
    hide Pieces, Join, MessageLines, ReadLines, After, OneLineFields;
    FieldsDecideLines(u);
    PiecesOfJoin(MessageLines(u), '\n');
    TagsRead(u);
  }

  /** So no upload at all signs the message of a newline-free one that it does not agree with on everything named. */
  lemma MessagesTellApart(u: SignedUpload, v: SignedUpload)
    requires OneLineFields(u)
    ensures SigningMessage(u) == SigningMessage(v) <==>
            && u.agent == v.agent && u.job == v.job && u.exit == v.exit && u.attempt == v.attempt
            && u.sha256 == v.sha256
            && (u.run == v.run || (u.run in {None, Some("")} && v.run in {None, Some("")}))
  {
    MessageRoundTrip(u);
    MessageRoundTrip(v);
  }

  lemma JoinShifts(d: string, a: string, b: string, c: string, rest: seq<string>, sep: char)
    requires rest != []
    ensures Join([d, a + [sep] + b, c] + rest, sep) == Join([d, a, b + [sep] + c] + rest, sep)
  {
    var tail := Join(rest, sep);
    TwoJoined(d, a + [sep] + b, c, rest, sep);
    TwoJoined(d, a, b + [sep] + c, rest, sep);
    assert (a + [sep] + b) + [sep] + c + [sep] + tail == a + [sep] + (b + [sep] + c) + [sep] + tail;
  }

  lemma TwoJoined(d: string, a: string, b: string, rest: seq<string>, sep: char)
    requires rest != []
    ensures Join([d, a, b] + rest, sep) == d + [sep] + (a + [sep] + b + [sep] + Join(rest, sep))
  {
    var all := [d, a, b] + rest;
    assert all[1..] == [a, b] + rest && all[1..][1..] == [b] + rest && all[1..][1..][1..] == rest;
    assert Join([b] + rest, sep) == b + [sep] + Join(rest, sep);
    assert Join([a, b] + rest, sep) == a + [sep] + (b + [sep] + Join(rest, sep));
    assert a + [sep] + (b + [sep] + Join(rest, sep)) == a + [sep] + b + [sep] + Join(rest, sep);
  }

  lemma LinesInOne(tag: string, a: string, next: string, b: string)
    ensures Line(tag, a + (['\n'] + next) + b) == Line(tag, a) + ['\n'] + Line(next, b)
  {
  }

  /** With newlines in its fields an upload can sign the message of another one. */
  lemma NewlinesConfuse(u: SignedUpload, a: string, b: string, c: string)
    ensures var v, w := u.(agent := a + "\njob=" + b, job := c), u.(agent := a, job := b + "\njob=" + c);
            SigningMessage(v) == SigningMessage(w) && Signed(v) != Signed(w) && v.agent != w.agent && v.job != w.job
  {
    var v, w := u.(agent := a + "\njob=" + b, job := c), u.(agent := a, job := b + "\njob=" + c);
    assert "\njob=" == ['\n'] + "job=";
    assert |v.agent| > |w.agent| && |v.job| < |w.job|;
    hide Line, Join, IntText, RunText, AttemptText;
    LinesInOne("agent=", a, "job=", b);
    LinesInOne("job=", b, "job=", c);
    var rest := MessageLines(u)[3..];
    JoinShifts(DOMAIN, Line("agent=", a), Line("job=", b), Line("job=", c), rest, '\n');
    assert MessageLines(v) == [DOMAIN, Line("agent=", a) + ['\n'] + Line("job=", b), Line("job=", c)] + rest;
    assert MessageLines(w) == [DOMAIN, Line("agent=", a), Line("job=", b) + ['\n'] + Line("job=", c)] + rest;
  }

  /******* The subject of a tenant's jobs *******/

  predicate IsTokenChar(c: char) {
    IsLetter(c) || IsDigit(c) || c == '_' || c == '-'
  }

  predicate IsToken(s: string) {
    s != "" && forall i :: 0 <= i < |s| ==> IsTokenChar(s[i])
  }

  /** `_SUBJECT_TOKEN_RE.match`: the pattern's end also matches before a final newline. */
  predicate Matches(s: string) {
    IsToken(s) || (s != "" && s[|s| - 1] == '\n' && IsToken(s[..|s| - 1]))
  }

  predicate StartsWith(s: string, prefix: string) {
    |prefix| <= |s| && s[..|prefix|] == prefix
  }

  /** `hash` is the first 32 hexadecimal digits of the SHA-256 of the text. */
  function SubjectToken(value: string, fallback: string, hash: string -> string): string {
    if Matches(value) && !StartsWith(value, "h_") then value
    else if value == "" then fallback
    else "h_" + hash(value)
  }

  function ScanSubject(tenant: string, group: Option<string>, hash: string -> string): string {
    var subject := "jobs.scan." + SubjectToken(tenant, "default", hash);
    if group.Some? && group.value != "" then subject + "." + SubjectToken(group.value, "ungrouped", hash) else subject
  }

  /** The two texts hash to tokens, and do not collide. */
  predicate HashedApart(hash: string -> string, s: string, t: string) {
    IsToken(hash(s)) && IsToken(hash(t)) && (hash(s) == hash(t) ==> s == t)
  }

  function Tenant(tenant: string): string {
    if tenant == "" then "default" else tenant
  }

  function Group(group: Option<string>): string {
    if group.Some? then group.value else ""
  }

  lemma TokensTellApart(s: string, t: string, fallback: string, hash: string -> string)
    requires HashedApart(hash, s, t) && s != "" && t != ""
    ensures SubjectToken(s, fallback, hash) == SubjectToken(t, fallback, hash) <==> s == t
  {
    if SubjectToken(s, fallback, hash) == SubjectToken(t, fallback, hash) {
      EncodedIsMarked(s, fallback, hash);
      EncodedIsMarked(t, fallback, hash);
    }
  }

  lemma EncodedIsMarked(s: string, fallback: string, hash: string -> string)
    requires IsToken(hash(s)) && s != ""
    ensures var r := SubjectToken(s, fallback, hash);
            && Free(r, '.') && r != ""
            && (if StartsWith(r, "h_") then r[2..] == hash(s) else r == s)
  {
    var r := SubjectToken(s, fallback, hash);
    if !(Matches(s) && !StartsWith(s, "h_")) {
      assert r[..2] == "h_" && r[2..] == hash(s);
    }
  }

  /** Names that are tokens, and do not look hashed, stand in the subject as they are. */
  lemma PlainNamesAreVerbatim(tenant: string, group: string, hash: string -> string)
    requires IsToken(tenant) && !StartsWith(tenant, "h_") && IsToken(group) && !StartsWith(group, "h_")
    ensures ScanSubject(tenant, None, hash) == "jobs.scan." + tenant
    ensures ScanSubject(tenant, Some(group), hash) == "jobs.scan." + tenant + "." + group
    ensures ScanSubject("", None, hash) == "jobs.scan.default"
  {
    assert "jobs.scan." + "default" == "jobs.scan.default";
  }

  /** The parts of a subject. */
  function SubjectParts(tenant: string, group: string, hash: string -> string): seq<string> {
    ["jobs", "scan", SubjectToken(tenant, "default", hash)]
    + if group == "" then [] else [SubjectToken(group, "ungrouped", hash)]
  }

  lemma UnnamedIsDefault(tenant: string, hash: string -> string)
    ensures SubjectToken(tenant, "default", hash) == SubjectToken(Tenant(tenant), "default", hash)
  {
    assert IsToken("default") && "default"[0] != 'h';
  }

  lemma SubjectIsJoined(tenant: string, group: Option<string>, hash: string -> string)
    ensures ScanSubject(tenant, group, hash) == Join(SubjectParts(Tenant(tenant), Group(group), hash), '.')
  {
    UnnamedIsDefault(tenant, hash);
    hide SubjectToken;
    var parts := SubjectParts(Tenant(tenant), Group(group), hash);
    assert parts[1..][1..] == parts[2..];
    assert "jobs" + "." + ("scan" + "." + Join(parts[2..], '.')) == "jobs.scan." + Join(parts[2..], '.');
    if Group(group) != "" {
      assert parts[2..][1..] == [parts[3]];
    }
  }

  /** Tokens hold no dot, so a subject can be taken apart again. */
  lemma PartsOfSubject(tenant: string, group: string, hash: string -> string)
    requires IsToken(hash(tenant)) && IsToken(hash(group)) && tenant != ""
    ensures var parts := SubjectParts(tenant, group, hash); Pieces(Join(parts, '.'), '.') == parts
  {
    EncodedIsMarked(tenant, "default", hash);
    if group != "" {
      EncodedIsMarked(group, "ungrouped", hash);
    }
    assert Free("jobs", '.') && Free("scan", '.');
    hide SubjectToken, Free;
    PiecesOfJoin(SubjectParts(tenant, group, hash), '.');
  }

  /**
   Two jobs share a subject exactly when they are the same tenant's, an unnamed tenant
   being the default one, and the same group's, an empty group being none.
   */
  lemma SubjectsTellApart(t: string, g: Option<string>, t': string, g': Option<string>, hash: string -> string)
    requires HashedApart(hash, Tenant(t), Tenant(t')) && HashedApart(hash, Group(g), Group(g'))
    ensures ScanSubject(t, g, hash) == ScanSubject(t', g', hash) <==> Tenant(t) == Tenant(t') && Group(g) == Group(g')
  {
    hide SubjectToken, Pieces, Join, ScanSubject;
    SubjectIsJoined(t, g, hash);
    SubjectIsJoined(t', g', hash);
    PartsOfSubject(Tenant(t), Group(g), hash);
    PartsOfSubject(Tenant(t'), Group(g'), hash);
    TokensTellApart(Tenant(t), Tenant(t'), "default", hash);
    var p, p' := SubjectParts(Tenant(t), Group(g), hash), SubjectParts(Tenant(t'), Group(g'), hash);
    if Group(g) != "" && Group(g') != "" {
      TokensTellApart(Group(g), Group(g'), "ungrouped", hash);
      assert p == p' ==> p[3] == p'[3];
    }
    assert p == p' ==> p[2] == p'[2] && |p| == |p'|;
  }
}
