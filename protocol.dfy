/**
 * The contract between the orchestrator (api/app.ts) and the renderer
 * (api/generator/generator.py): the command line the renderer's argument
 * parser reads, the progress marker the renderer writes on
 * its diagnostic stream and the orchestrator's regular expression that reads
 * it, and the result record the renderer prints last on its primary stream.
 */
module Protocol {
  import opened Wrappers
  import opened Strings

  // ---------------------------------------------------------------------
  // Progress markers
  // ---------------------------------------------------------------------

  const ProgressTag: string := "::PROGRESS::"

  /** The line `MyBarLogger.bars_callback` writes to stderr, without its newline. */
  function ProgressLine(fmt: string, percent: nat): string {
    ProgressTag + fmt + "::" + NatToString(percent)
  }

  /** The two capture groups of `/::PROGRESS::(.*?)::(\d+)/`, the second parsed with `parseInt`. */
  datatype ProgressMatch = ProgressMatch(fmt: string, percent: nat)

  /** Number of decimal digits at the start of `s` (the greedy `\d+`). */
  function DigitRun(s: string): (n: nat)
    ensures n <= |s| && AllDigits(s[..n])
    ensures n == |s| || !IsDigit(s[n])
    decreases |s|
  {
    if |s| > 0 && IsDigit(s[0]) then
      var n := 1 + DigitRun(s[1..]);
      assert forall i :: 1 <= i < n ==> s[..n][i] == s[1..][..n - 1][i - 1];
      n
    else 0
  }

  /**
   * The lazy group `(.*?)` followed by `::(\d+)`, tried from length `j` upwards:
   * the least length `n >= j` such that `s[n..]` starts with two colons and a
   * digit and no character of `s[j..n]` is a line terminator.
   */
  function LazyGroup(s: string, j: nat): (r: Option<nat>)
    ensures r.Some? ==> j <= r.value && r.value + 3 <= |s|
    ensures r.Some? ==> s[r.value] == ':' && s[r.value + 1] == ':' && IsDigit(s[r.value + 2])
    ensures r.Some? ==> forall k :: j <= k < r.value ==> !IsLineTerminator(s[k])
    decreases |s| - j
  {
    if j + 3 > |s| then None
    else if s[j] == ':' && s[j + 1] == ':' && IsDigit(s[j + 2]) then Some(j)
    else if IsLineTerminator(s[j]) then None
    else LazyGroup(s, j + 1)
  }

  /** What follows the tag: the lazy format group, two colons and the greedy digits. */
  function AfterTag(rest: string): Option<ProgressMatch> {
    match LazyGroup(rest, 0)
    case None => None
    case Some(n) =>
      var tail := rest[n + 2..];
      Some(ProgressMatch(rest[..n], DigitsValue(tail[..DigitRun(tail)])))
  }

  /** The regular expression matched at exactly position `i` of `line`. */
  function MatchAt(line: string, i: nat): (r: Option<ProgressMatch>)
    ensures r.Some? ==> OccursAt(line, ProgressTag, i)
  {
    if !OccursAt(line, ProgressTag, i) then None else AfterTag(line[i + |ProgressTag|..])
  }

  /** The leftmost match at or after position `i`. */
  function MatchFrom(line: string, i: nat): (r: Option<ProgressMatch>)
    ensures r.Some? ==> exists k :: i <= k && OccursAt(line, ProgressTag, k)
    decreases |line| + 1 - i
  {
    if i > |line| then None
    else match MatchAt(line, i)
      case Some(m) => Some(m)
      case None => MatchFrom(line, i + 1)
  }

  /** `line.match(/::PROGRESS::(.*?)::(\d+)/)`: the leftmost match, if any. */
  function MatchProgress(line: string): (r: Option<ProgressMatch>)
    ensures r.Some? ==> exists k :: OccursAt(line, ProgressTag, k)
  {
    MatchFrom(line, 0)
  }

  /** A format key the marker can carry unambiguously: no `::` and no line terminator. */
  predicate PlainFormat(fmt: string) {
    && (forall k :: 0 <= k < |fmt| ==> !OccursAt(fmt, "::", k))
    && (forall k :: 0 <= k < |fmt| ==> !IsLineTerminator(fmt[k]))
  }

  lemma {:induction false} LazyGroupSkipsFormat(s: string, fmt: string, j: nat)
    requires PlainFormat(fmt)
    requires |fmt| + 3 <= |s| && s[..|fmt|] == fmt
    requires s[|fmt|] == ':' && s[|fmt| + 1] == ':' && IsDigit(s[|fmt| + 2])
    requires j <= |fmt|
    ensures LazyGroup(s, j) == Some(|fmt|)
    decreases |fmt| - j
  {
    if j < |fmt| {
      assert s[j] == fmt[j];
      if j + 1 < |fmt| {
        assert fmt[j..j + 2] == s[j..j + 2];
        assert !OccursAt(fmt, "::", j);
      }
      LazyGroupSkipsFormat(s, fmt, j + 1);
    }
  }

  /**
   * Every progress line the renderer writes is read back by the orchestrator's
   * regular expression as the same format key and percentage, whatever follows
   * it on the line as long as it does not start with a digit (a `\r` left by a
   * Windows line ending, for one).
   */
  lemma {:induction false} ProgressLineRoundTrip(fmt: string, percent: nat, suffix: string)
    requires PlainFormat(fmt)
    requires suffix == [] || !IsDigit(suffix[0])
    ensures MatchProgress(ProgressLine(fmt, percent) + suffix) == Some(ProgressMatch(fmt, percent))
  {
    var line := ProgressLine(fmt, percent) + suffix;
    var rest := fmt + "::" + NatToString(percent) + suffix;
    assert line == ProgressTag + rest;
    assert line[..|ProgressTag|] == ProgressTag;
    assert line[|ProgressTag|..] == rest;
    AfterTagOfMarker(fmt, percent, suffix);
  }

  lemma AfterTagOfMarker(fmt: string, percent: nat, suffix: string)
    requires PlainFormat(fmt)
    requires suffix == [] || !IsDigit(suffix[0])
    ensures AfterTag(fmt + "::" + NatToString(percent) + suffix) == Some(ProgressMatch(fmt, percent))
  {
    var digits := NatToString(percent);
    var rest := fmt + "::" + digits + suffix;
    assert rest[..|fmt|] == fmt;
    assert rest[|fmt|] == ':' && rest[|fmt| + 1] == ':' && rest[|fmt| + 2] == digits[0];
    LazyGroupSkipsFormat(rest, fmt, 0);
    var tail := rest[|fmt| + 2..];
    assert tail == digits + suffix;
    DigitRunOfDigits(digits, suffix);
    assert tail[..|digits|] == digits;
    DigitsRoundTrip(percent);
  }

  lemma {:induction false} DigitRunOfDigits(digits: string, suffix: string)
    requires AllDigits(digits)
    requires suffix == [] || !IsDigit(suffix[0])
    ensures DigitRun(digits + suffix) == |digits|
    decreases |digits|
  {
    if |digits| > 0 {
      assert (digits + suffix)[1..] == digits[1..] + suffix;
      DigitRunOfDigits(digits[1..], suffix);
    } else {
      assert digits + suffix == suffix;
    }
  }

  /** A line without the tag is never taken for a progress marker. */
  lemma NoTagNoMatch(line: string)
    requires forall k :: !OccursAt(line, ProgressTag, k)
    ensures MatchProgress(line) == None
  {
  }

  // ---------------------------------------------------------------------
  // The result record
  // ---------------------------------------------------------------------

  /**
   * What the orchestrator reads from a decoded stdout line: the `status`,
   * `files` and `message` fields of the parsed object. An empty string stands
   * for a missing or falsy field; `files` is `None` when it is missing or not
   * an array of names.
   */
  datatype ResultRecord = ResultRecord(status: string, files: Option<seq<string>>, message: string)

  /** A decoded record the backward scan accepts: `parsed.status` is truthy. */
  predicate Recognised(r: Option<ResultRecord>) {
    r.Some? && r.value.status != ""
  }

  /** How the renderer's process ends: the last stdout line's record and the exit code. */
  datatype RendererExit = RendererExit(record: ResultRecord, code: int)

  /**
   * The renderer's `__main__`: the slideshow's file list on success, the
   * exception's text on failure; both exit with code 0.
   */
  function MainExit(outcome: Result<seq<string>, string>): RendererExit {
    match outcome
    case Ok(files) => RendererExit(ResultRecord("success", Some(files), ""), 0)
    case Err(message) => RendererExit(ResultRecord("error", None, message), 0)
  }

  /** `JSON.parse` reads back whatever `json.dumps` wrote. */
  ghost predicate Faithful(encode: ResultRecord -> string, decode: string -> Option<ResultRecord>) {
    forall r :: decode(encode(r)) == Some(r)
  }
  // ---------------------------------------------------------------------
  // The renderer's command line
  // ---------------------------------------------------------------------

  /** What the renderer's parser hands to `generate_slideshow`. */
  datatype RendererArguments = RendererArguments(images: seq<string>, id: string, output: string, settings: string)

  /** The options seen so far; a repeated option keeps its last value, as argparse's `store` does. */
  datatype SeenOptions = SeenOptions(images: Option<seq<string>>, id: Option<string>, output: Option<string>, settings: Option<string>)

  /** argparse exits with status 2 after printing its usage message. */
  const UsageExitCode: int := 2

  /** An argument argparse reads as an option rather than as a value. */
  predicate IsOptionLike(a: string) {
    |a| > 1 && a[0] == '-'
  }

  predicate IsRendererOption(a: string) {
    a == "--images" || a == "--id" || a == "--output" || a == "--settings"
  }

  /** Number of values at the start of `args`, up to the next option. */
  function ValueRun(args: seq<string>): (n: nat)
    ensures n <= |args|
    ensures forall k :: 0 <= k < n ==> !IsOptionLike(args[k])
    ensures n == |args| || IsOptionLike(args[n])
    decreases |args|
  {
    if |args| > 0 && !IsOptionLike(args[0]) then 1 + ValueRun(args[1..]) else 0
  }

  /**
   * The parser built in `generator.py`'s main block: `--images` takes one or
   * more values, `--id`, `--output` and `--settings` one each, all four are
   * required, and anything else is a usage error (`Err(UsageExitCode)`).
   */
  function ParseFrom(args: seq<string>, seen: SeenOptions): (r: Result<RendererArguments, int>)
    ensures r.Err? ==> r.error == UsageExitCode
    ensures r.Ok? ==> |r.value.images| > 0
    ensures seen.images.Some? && |seen.images.value| > 0 && r.Ok? && "--images" !in args ==> r.value.images == seen.images.value
    decreases |args|
  {
    if |args| == 0 then
      if seen.images.Some? && |seen.images.value| > 0 && seen.id.Some? && seen.output.Some? && seen.settings.Some? then
        Ok(RendererArguments(seen.images.value, seen.id.value, seen.output.value, seen.settings.value))
      else Err(UsageExitCode)
    else if !IsRendererOption(args[0]) then Err(UsageExitCode)
    else
      var n := ValueRun(args[1..]);
      if n == 0 then Err(UsageExitCode)
      else if args[0] == "--images" then ParseFrom(args[1 + n..], seen.(images := Some(args[1..1 + n])))
      else
        var value := args[1];
        assert forall a :: a in args[2..] ==> a in args;
        ParseFrom(args[2..], if args[0] == "--id" then seen.(id := Some(value))
                             else if args[0] == "--output" then seen.(output := Some(value))
                             else seen.(settings := Some(value)))
  }

  /** `parser.parse_args()` on the renderer's arguments. */
  function ParseRendererArgs(args: seq<string>): Result<RendererArguments, int> {
    ParseFrom(args, SeenOptions(None, None, None, None))
  }

  /** The values run ends at the first option. */
  lemma ValueRunIsFirstOption(args: seq<string>, n: nat)
    requires n <= |args|
    requires forall k :: 0 <= k < n ==> !IsOptionLike(args[k])
    requires n == |args| || IsOptionLike(args[n])
    ensures ValueRun(args) == n
  {
  }
}
