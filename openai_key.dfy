/** The OpenAI client's string logic (backend/app/services/openai_client.py):
    finding the API key in the environment or in `.env` files, and the reply
    text `generate` returns.

    The directory walk and the file reads are outside the model: the caller
    passes the contents of the `.env` files that exist and could be read, in
    the order the walk meets them (the source file's directory first, then
    each parent). */
module OpenAiKey {
  import opened Wrappers

  const KeyName := "OPENAI_API_KEY"

  /** Python's `str.isspace` for one character. */
  predicate IsSpace(c: char)
  {
    c == ' ' || ('\t' <= c <= '\r') || ('\U{1C}' <= c <= '\U{1F}') || c == '\U{85}' || c == '\U{A0}'
    || c == '\U{1680}' || ('\U{2000}' <= c <= '\U{200A}') || c == '\U{2028}' || c == '\U{2029}'
    || c == '\U{202F}' || c == '\U{205F}' || c == '\U{3000}'
  }

  /** The line boundaries of Python's `str.splitlines`. */
  predicate IsLineBreak(c: char)
  {
    c == '\n' || c == '\r' || c == '\U{0B}' || c == '\U{0C}' || ('\U{1C}' <= c <= '\U{1E}')
    || c == '\U{85}' || c == '\U{2028}' || c == '\U{2029}'
  }

  predicate IsDoubleQuote(c: char) { c == '"' }

  predicate IsSingleQuote(c: char) { c == '\'' }

  /** The index of the first character satisfying `p`, or `|s|` when there is none. */
  function FindFirst(s: string, p: char -> bool): (k: nat)
    ensures k <= |s|
    ensures forall i :: 0 <= i < k ==> !p(s[i])
    ensures k < |s| ==> p(s[k])
  {
    if s == [] then 0 else if p(s[0]) then 0 else 1 + FindFirst(s[1..], p)
  }

  predicate IsEquals(c: char) { c == '=' }

  predicate IsHash(c: char) { c == '#' }

  /** The number of leading characters of `s` that satisfy `p`. */
  function LeadingRun(s: string, p: char -> bool): (k: nat)
    ensures k <= |s|
  {
    if s == [] || !p(s[0]) then 0 else 1 + LeadingRun(s[1..], p)
  }

  /** The length of `s` without its trailing characters that satisfy `p`. */
  function TrailingCut(s: string, p: char -> bool): (k: nat)
    ensures k <= |s|
  {
    if s == [] || !p(s[|s| - 1]) then |s| else TrailingCut(s[..|s| - 1], p)
  }

  /** `s.strip(chars)`: leading and trailing characters satisfying `p` removed. */
  function Strip(s: string, p: char -> bool): string
  {
    var i := LeadingRun(s, p);
    var j := TrailingCut(s, p);
    if i < j then s[i..j] else []
  }

  /** `s.splitlines()`: the lines without their terminators; `\r\n` ends one line. */
  function SplitLines(s: string): seq<string>
    decreases |s|
  {
    if s == [] then []
    else
      var k := FindFirst(s, IsLineBreak);
      if k == |s| then [s]
      else
        var next := if s[k] == '\r' && k + 1 < |s| && s[k + 1] == '\n' then k + 2 else k + 1;
        [s[..k]] + SplitLines(s[next..])
  }

  /** `value.split("#", 1)[0].strip().strip('"').strip("'")`. */
  function CleanValue(value: string): string
  {
    Strip(Strip(Strip(value[..FindFirst(value, IsHash)], IsSpace), IsDoubleQuote), IsSingleQuote)
  }

  /** What one line of a `.env` file says about the key. */
  datatype LineVerdict = Skip | Match(value: string)

  /** A raw line is read after stripping its blanks. */
  function ReadLine(rawLine: string): LineVerdict
  {
    ReadStripped(Strip(rawLine, IsSpace))
  }

  /** Empty lines and comments are skipped; any other line is an assignment,
      split at its first `=`. */
  function ReadStripped(line: string): LineVerdict
  {
    if line == "" || line[0] == '#' then Skip
    else ReadAssignment(line, FindFirst(line, IsEquals))
  }

  /** The key is the text before position `eq`, the value the text after it
      (empty when the line has no `=`). */
  function ReadAssignment(line: string, eq: nat): LineVerdict
    requires eq <= |line|
  {
    var value := if eq < |line| then line[eq + 1..] else "";
    if Strip(line[..eq], IsSpace) != KeyName then Skip else Match(CleanValue(value))
  }

  /** What one `.env` file says: nothing, or the decision of its first matching line. */
  datatype FileVerdict = NoMatch | Decided(key: Option<string>)

  /** The first match decides: its value, or none when the value is empty. */
  function FirstMatch(verdicts: seq<LineVerdict>): (r: FileVerdict)
    ensures r.Decided? && r.key.Some? ==> r.key.value != ""
    ensures r.Decided? <==> exists i :: 0 <= i < |verdicts| && verdicts[i].Match?
  {
    if verdicts == [] then NoMatch
    else match verdicts[0]
      case Skip => FirstMatch(verdicts[1..])
      case Match(v) => Decided(if v == "" then None else Some(v))
  }

  /** The loop over the lines of one file, `continue` on a skipped line and
      `return` on the first match. */
  function ScanLines(lines: seq<string>): (r: FileVerdict)
    ensures r.Decided? && r.key.Some? ==> r.key.value != ""
  {
    FirstMatch(seq(|lines|, i requires 0 <= i < |lines| => ReadLine(lines[i])))
  }

  /** What the text of one `.env` file says. */
  function ScanFile(contents: string): FileVerdict
  {
    ScanLines(SplitLines(contents))
  }

  /** The decision of the first file that has one. */
  function FirstDecided(verdicts: seq<FileVerdict>): (r: Option<string>)
    ensures r.Some? ==> exists i :: 0 <= i < |verdicts| && verdicts[i] == Decided(r)
  {
    if verdicts == [] then None
    else match verdicts[0]
      case NoMatch => FirstDecided(verdicts[1..])
      case Decided(k) => k
  }

  /** The key the `.env` files give: the first file with a matching line decides. */
  function ScanFiles(contents: seq<string>): (r: Option<string>)
    ensures r.Some? ==> r.value != ""
  {
    FirstDecided(seq(|contents|, i requires 0 <= i < |contents| => ScanFile(contents[i])))
  }

  /** `_resolve_openai_api_key`: a non-empty environment value wins, otherwise the `.env` files decide. */
  function ResolveApiKey(env: Option<string>, envFiles: seq<string>): (r: Option<string>)
    ensures env.Some? && env.value != "" ==> r == env
    ensures env.None? || env.value == "" ==> r == ScanFiles(envFiles)
    ensures r.Some? ==> r.value != ""
  {
    if env.Some? && env.value != "" then env else ScanFiles(envFiles)
  }

  /** What the Responses API call gives back: an `OpenAIError`, or a response whose `output_text` may be missing. */
  datatype ApiOutcome = ApiError | ApiResponse(outputText: Option<string>)

  const NoReply := "I could not generate a response."
  const FetchFailed := "Failed to fetch response from OpenAI."

  /** `OpenAIClient.generate`: an API error becomes an error; an empty or
      missing text becomes the fixed apology; any other text is the reply. */
  function Generate(outcome: ApiOutcome): (r: Result<string, string>)
    ensures r.Failure? <==> outcome.ApiError?
    ensures r.Failure? ==> r.error == FetchFailed
    ensures outcome.ApiResponse? && outcome.outputText.Some? && outcome.outputText.value != "" ==>
              r == Success(outcome.outputText.value)
    ensures outcome.ApiResponse? && (outcome.outputText.None? || outcome.outputText.value == "") ==>
              r == Success(NoReply)
    ensures r.Success? ==> r.value != ""
  {
    match outcome
    case ApiError => Failure(FetchFailed)
    case ApiResponse(text) =>
      if text.None? || text.value == "" then Success(NoReply) else Success(text.value)
  }

  // ---------------------------------------------------------------------
  // Lemmas

  lemma {:induction false} FindFirstAppend(a: string, b: string, p: char -> bool)
    requires forall i :: 0 <= i < |a| ==> !p(a[i])
    ensures FindFirst(a + b, p) == |a| + FindFirst(b, p)
  {
    if a != [] {
      assert (a + b)[0] == a[0];
      assert (a + b)[1..] == a[1..] + b;
      FindFirstAppend(a[1..], b, p);
    } else {
      assert a + b == b;
    }
  }

  /** The leading run is all of `p` and ends at a character that is not. */
  lemma {:induction false} LeadingRunFacts(s: string, p: char -> bool)
    ensures forall i :: 0 <= i < LeadingRun(s, p) ==> p(s[i])
    ensures LeadingRun(s, p) < |s| ==> !p(s[LeadingRun(s, p)])
    decreases |s|
  {
    if s != [] && p(s[0]) {
      LeadingRunFacts(s[1..], p);
    }
  }

  /** The cut is followed only by characters satisfying `p` and preceded by one that does not. */
  lemma {:induction false} TrailingCutFacts(s: string, p: char -> bool)
    ensures forall i :: TrailingCut(s, p) <= i < |s| ==> p(s[i])
    ensures TrailingCut(s, p) > 0 ==> !p(s[TrailingCut(s, p) - 1])
    decreases |s|
  {
    if s != [] && p(s[|s| - 1]) {
      TrailingCutFacts(s[..|s| - 1], p);
    }
  }

  /** A stripped text is the piece `s[i..j]` of the original; all that was
      removed satisfies `p`, and a non-empty piece starts and ends with a
      character that does not. */
  lemma StripSlice(s: string, p: char -> bool) returns (i: nat, j: nat)
    ensures i <= j <= |s| && Strip(s, p) == s[i..j]
    ensures forall k :: 0 <= k < i ==> p(s[k])
    ensures forall k :: j <= k < |s| ==> p(s[k])
    ensures i < j ==> !p(s[i]) && !p(s[j - 1])
  {
    LeadingRunFacts(s, p);
    TrailingCutFacts(s, p);
    i, j := LeadingRun(s, p), TrailingCut(s, p);
    if j <= i {
      assert i == |s|;
      j := i;
    }
  }

  /** Conversely, a piece with those properties is what `strip` returns. */
  lemma StripAt(s: string, p: char -> bool, i: nat, j: nat)
    requires i < j <= |s| && !p(s[i]) && !p(s[j - 1])
    requires forall k :: 0 <= k < i ==> p(s[k])
    requires forall k :: j <= k < |s| ==> p(s[k])
    ensures Strip(s, p) == s[i..j]
  {
    LeadingRunFacts(s, p);
    TrailingCutFacts(s, p);
  }

  /** `strip` of an all-stripped text is empty. */
  lemma StripAll(s: string, p: char -> bool)
    requires forall k :: 0 <= k < |s| ==> p(s[k])
    ensures Strip(s, p) == ""
  {
    LeadingRunFacts(s, p);
    TrailingCutFacts(s, p);
    var l, t := LeadingRun(s, p), TrailingCut(s, p);
    assert l == |s|;
    assert t == 0;
  }

  /** Stripping twice strips no more than stripping once. */
  lemma StripStripped(s: string, p: char -> bool)
    ensures Strip(Strip(s, p), p) == Strip(s, p)
  {
    var i, j := StripSlice(s, p);
    var t := s[i..j];
    if i < j {
      assert t[0] == s[i] && t[|t| - 1] == s[j - 1];
      StripAt(t, p, 0, |t|);
    } else {
      StripAll(t, p);
    }
  }

  lemma SliceOfSlice(s: string, i1: nat, j1: nat, i2: nat, j2: nat)
    requires i1 <= j1 <= |s| && i2 <= j2 <= j1 - i1
    ensures s[i1..j1][i2..j2] == s[i1 + i2..i1 + j2]
  {
    var a, b := s[i1..j1][i2..j2], s[i1 + i2..i1 + j2];
    assert |a| == |b|;
    forall k | 0 <= k < |a| ensures a[k] == b[k] {
      assert a[k] == s[i1..j1][i2 + k];
    }
  }

  /** Stripping a piece `s[lo..hi]` leaves a smaller piece of `s`. */
  lemma StripPiece(s: string, p: char -> bool, lo: nat, hi: nat) returns (i: nat, j: nat)
    requires lo <= hi <= |s|
    ensures lo <= i <= j <= hi && Strip(s[lo..hi], p) == s[i..j]
    ensures i < j ==> !p(s[i]) && !p(s[j - 1])
  {
    var i1, j1 := StripSlice(s[lo..hi], p);
    SliceOfSlice(s, lo, hi, i1, j1);
    i, j := lo + i1, lo + j1;
  }

  lemma CleanValueShape(value: string) returns (i: nat, j: nat)
    ensures i <= j <= FindFirst(value, IsHash) && CleanValue(value) == value[i..j]
    ensures forall k :: i <= k < j ==> value[k] != '#'
    ensures i < j ==> value[i] != '\'' && value[j - 1] != '\''
  {
    var n := FindFirst(value, IsHash);
    var i1, j1 := StripPiece(value, IsSpace, 0, n);
    var i2, j2 := StripPiece(value, IsDoubleQuote, i1, j1);
    i, j := StripPiece(value, IsSingleQuote, i2, j2);
    var cut := value[..n];
    assert value[0..n] == cut;
    var a := Strip(cut, IsSpace);
    assert a == value[i1..j1];
    var b := Strip(a, IsDoubleQuote);
    assert b == value[i2..j2];
    var r := Strip(b, IsSingleQuote);
    assert r == value[i..j];
  }
  /** Lines that are blank after stripping are skipped. */
  lemma BlankLineSkipped(line: string)
    requires forall i :: 0 <= i < |line| ==> IsSpace(line[i])
    ensures ReadLine(line) == Skip
  {
    StripAll(line, IsSpace);
  }

  /** Lines whose first non-blank character is `#` are skipped. */
  lemma CommentLineSkipped(pad: string, rest: string)
    requires forall i :: 0 <= i < |pad| ==> IsSpace(pad[i])
    ensures ReadLine(pad + "#" + rest) == Skip
  {
    var s := pad + "#" + rest;
    assert s[|pad|] == '#';
    var i, j := StripSlice(s, IsSpace);
    if i < |pad| { assert IsSpace(s[i]); }
  }

  /** Blanks before a text that starts and ends with a non-blank are stripped. */
  lemma StripLeftPad(pad: string, body: string, p: char -> bool)
    requires forall i :: 0 <= i < |pad| ==> p(pad[i])
    requires |body| > 0 && !p(body[0]) && !p(body[|body| - 1])
    ensures Strip(pad + body, p) == body
  {
    var s := pad + body;
    StripAt(s, p, |pad|, |s|);
    assert s[|pad|..|s|] == body;
  }

  /** Blanks after a text that starts and ends with a non-blank are stripped. */
  lemma StripRightPad(body: string, pad: string, p: char -> bool)
    requires forall i :: 0 <= i < |pad| ==> p(pad[i])
    requires |body| > 0 && !p(body[0]) && !p(body[|body| - 1])
    ensures Strip(body + pad, p) == body
  {
    var s := body + pad;
    StripAt(s, p, 0, |body|);
    assert s[0..|body|] == body;
  }

  /** A name with no `=` and no blank at either end. */
  predicate BareName(name: string)
  {
    |name| > 0 && !IsSpace(name[0]) && !IsSpace(name[|name| - 1])
    && forall i :: 0 <= i < |name| ==> !IsEquals(name[i])
  }

  /** In `key + "=" + value`, with no `=` in `key`, the first `=` is the one
      after `key`. */
  lemma SplitAtFirstEquals(key: string, value: string)
    requires forall i :: 0 <= i < |key| ==> !IsEquals(key[i])
    ensures FindFirst(key + "=" + value, IsEquals) == |key|
    ensures (key + "=" + value)[..|key|] == key
    ensures (key + "=" + value)[|key| + 1..] == value
  {
    assert key + "=" + value == key + ("=" + value);
    FindFirstAppend(key, "=" + value, IsEquals);
  }

  /** A line `name = value`, with blanks around the name, is read as a match
      exactly when the name is the key name, with the cleaned text after the
      first `=` as its value. */
  lemma AssignmentRead(pad1: string, name: string, pad2: string, value: string)
    requires forall i :: 0 <= i < |pad1| ==> IsSpace(pad1[i])
    requires forall i :: 0 <= i < |pad2| ==> IsSpace(pad2[i])
    requires BareName(name) && name[0] != '#'
    requires value == "" || !IsSpace(value[|value| - 1])
    ensures ReadLine(pad1 + name + pad2 + "=" + value)
         == if name == KeyName then Match(CleanValue(value)) else Skip
  {
    var key := name + pad2;
    var body := key + "=" + value;
    assert pad1 + name + pad2 + "=" + value == pad1 + body;
    assert body[0] == name[0];
    assert body[|body| - 1] == if value == "" then '=' else value[|value| - 1];
    StripLeftPad(pad1, body, IsSpace);
    assert forall i :: 0 <= i < |key| ==> !IsEquals(key[i]) by {
      forall i | 0 <= i < |key| ensures !IsEquals(key[i]) {
        if i >= |name| { assert key[i] == pad2[i - |name|]; }
      }
    }
    SplitAtFirstEquals(key, value);
    StripRightPad(name, pad2, IsSpace);
    AssignmentParts(body, |key|, key, value);
  }

  lemma AssignmentParts(line: string, eq: nat, key: string, value: string)
    requires eq < |line| && line[..eq] == key && line[eq + 1..] == value
    ensures ReadAssignment(line, eq) == if Strip(key, IsSpace) == KeyName then Match(CleanValue(value)) else Skip
  {
  }

  /** A line `OPENAI_API_KEY = value` is read as a match whose value is the
      cleaned text after the first `=`. */
  lemma KeyLineRead(pad1: string, pad2: string, value: string)
    requires forall i :: 0 <= i < |pad1| ==> IsSpace(pad1[i])
    requires forall i :: 0 <= i < |pad2| ==> IsSpace(pad2[i])
    requires value == "" || !IsSpace(value[|value| - 1])
    ensures ReadLine(pad1 + KeyName + pad2 + "=" + value) == Match(CleanValue(value))
  {
    AssignmentRead(pad1, KeyName, pad2, value);
  }

  /** The key part of a line: its stripped text before the first `=`. */
  function KeyPart(rawLine: string): string
  {
    var line := Strip(rawLine, IsSpace);
    Strip(line[..FindFirst(line, IsEquals)], IsSpace)
  }

  /** A line matches exactly when its key part is the key name; blank lines
      and comments need no separate test, since their key part never is. */
  lemma MatchesExactlyOnKey(rawLine: string)
    ensures ReadLine(rawLine).Match? <==> KeyPart(rawLine) == KeyName
  {
    var line := Strip(rawLine, IsSpace);
    var eq := FindFirst(line, IsEquals);
    if line != "" && line[0] == '#' {
      var i, j := StripSlice(rawLine, IsSpace);
      assert line[0] == rawLine[i];
      assert eq > 0;
      var key := line[..eq];
      var k1, k2 := StripSlice(key, IsSpace);
      assert key[0] == '#';
      assert k1 == 0;
      assert KeyName[0] == 'O';
    }
  }

  /** A line without `=` has the whole stripped line as its key and an empty
      value: it matches only when it is exactly the key name, and then it
      decides that there is no key. */
  lemma NoEqualsLine(rawLine: string)
    requires forall k :: 0 <= k < |rawLine| ==> rawLine[k] != '='
    ensures ReadLine(rawLine) == if Strip(rawLine, IsSpace) == KeyName then Match("") else Skip
  {
    var line := Strip(rawLine, IsSpace);
    assert forall k :: 0 <= k < |line| ==> !IsEquals(line[k]) by {
      var i, j := StripSlice(rawLine, IsSpace);
      forall k | 0 <= k < |line| ensures !IsEquals(line[k]) {
        assert line[k] == rawLine[i + k];
      }
    }
    StripStripped(rawLine, IsSpace);
    if line == "" {
    } else if line[0] == '#' {
      assert KeyName[0] == 'O';
    } else {
      WholeLineKey(line);
    }
  }

  /** With no `=`, the key is the whole line and the cleaned value is empty. */
  lemma WholeLineKey(line: string)
    requires forall k :: 0 <= k < |line| ==> !IsEquals(line[k])
    ensures ReadAssignment(line, FindFirst(line, IsEquals))
         == if Strip(line, IsSpace) == KeyName then Match("") else Skip
  {
    var eq := FindFirst(line, IsEquals);
    assert eq == |line|;
    assert line[..eq] == line;
    CleanEmpty();
  }

  /** An empty value cleans to the empty value. */
  lemma CleanEmpty()
    ensures CleanValue("") == ""
  {
    assert FindFirst("", IsHash) == 0;
    assert Strip("", IsSpace) == "";
    assert Strip("", IsDoubleQuote) == "";
  }

  /** Skip verdicts before position `k` are passed over, and the match at
      `k` decides. */
  lemma {:induction false} FirstMatchAt(verdicts: seq<LineVerdict>, k: nat)
    requires k < |verdicts| && verdicts[k].Match?
    requires forall i :: 0 <= i < k ==> verdicts[i] == Skip
    ensures FirstMatch(verdicts)
         == Decided(if verdicts[k].value == "" then None else Some(verdicts[k].value))
  {
    if k > 0 {
      FirstMatchAt(verdicts[1..], k - 1);
    }
  }

  /** Skipped lines before the first matching line have no influence, and
      nothing after it has any: its cleaned value, or none when it is empty,
      is the file's decision. */
  lemma FirstMatchWins(skipped: seq<string>, line: string, rest: seq<string>)
    requires forall i :: 0 <= i < |skipped| ==> ReadLine(skipped[i]) == Skip
    requires ReadLine(line).Match?
    ensures ScanLines(skipped + [line] + rest)
         == Decided(if ReadLine(line).value == "" then None else Some(ReadLine(line).value))
  {
    var lines := skipped + [line] + rest;
    var verdicts := seq(|lines|, i requires 0 <= i < |lines| => ReadLine(lines[i]));
    assert forall i :: 0 <= i < |skipped| ==> lines[i] == skipped[i];
    assert lines[|skipped|] == line;
    FirstMatchAt(verdicts, |skipped|);
  }

  /** Undecided verdicts before position `k` are passed over, and the one
      at `k` decides. */
  lemma {:induction false} FirstDecidedAt(verdicts: seq<FileVerdict>, k: nat)
    requires k < |verdicts| && verdicts[k].Decided?
    requires forall i :: 0 <= i < k ==> verdicts[i] == NoMatch
    ensures FirstDecided(verdicts) == verdicts[k].key
  {
    if k > 0 {
      FirstDecidedAt(verdicts[1..], k - 1);
    }
  }

  /** Files without a matching line are passed over, and the first file
      with one decides, whatever the files after it say. */
  lemma FirstDecidingFileWins(skipped: seq<string>, contents: string, rest: seq<string>)
    requires forall i :: 0 <= i < |skipped| ==> ScanFile(skipped[i]) == NoMatch
    requires ScanFile(contents).Decided?
    ensures ScanFiles(skipped + [contents] + rest) == ScanFile(contents).key
  {
    var files := skipped + [contents] + rest;
    var verdicts := seq(|files|, i requires 0 <= i < |files| => ScanFile(files[i]));
    assert forall i :: 0 <= i < |skipped| ==> files[i] == skipped[i];
    assert files[|skipped|] == contents;
    FirstDecidedAt(verdicts, |skipped|);
  }

  /** A key the way a `.env` file spells it: no blanks, `#` or quotes. */
  predicate PlainKey(key: string)
  {
    |key| > 0 && forall i :: 0 <= i < |key| ==> !IsSpace(key[i]) && key[i] != '#' && key[i] != '"' && key[i] != '\''
  }

  /** Writing `OPENAI_API_KEY="<key>"` as the only line of a `.env` file, with
      no key in the environment, gives back exactly that key. */
  lemma WrittenKeyIsRead(key: string)
    requires PlainKey(key)
    ensures ResolveApiKey(None, [KeyName + "=" + ("\"" + key + "\"") + "\n"]) == Some(key)
  {
    var contents := KeyName + "=" + ("\"" + key + "\"") + "\n";
    WrittenFileDecides(key);
    FirstDecidedAt(seq(1, i requires 0 <= i < 1 => ScanFile([contents][i])), 0);
  }

  /** The file holding only the quoted key line decides on that key. */
  lemma WrittenFileDecides(key: string)
    requires PlainKey(key)
    ensures ScanFile(KeyName + "=" + ("\"" + key + "\"") + "\n") == Decided(Some(key))
  {
    var line := KeyName + "=" + ("\"" + key + "\"");
    WrittenLineRead(key);
    KeyLineUnbroken(key);
    SingleLine(line);
    FirstMatchAt(seq(1, i requires 0 <= i < 1 => ReadLine([line][i])), 0);
  }

  /** The quoted key line matches, with the key itself as its value. */
  lemma WrittenLineRead(key: string)
    requires PlainKey(key)
    ensures ReadLine(KeyName + "=" + ("\"" + key + "\"")) == Match(key)
  {
    var quoted := "\"" + key + "\"";
    KeyLineRead("", "", quoted);
    Unpadded(KeyName, quoted);
    CleanQuoted(key);
  }

  lemma Unpadded(name: string, value: string)
    ensures "" + name + "" + "=" + value == name + "=" + value
  {
  }

  /** Every line boundary is also a blank. */
  lemma LineBreakIsSpace(c: char)
    requires IsLineBreak(c)
    ensures IsSpace(c)
  {
  }

  /** A line holding a plain key contains no line boundary. */
  lemma KeyLineUnbroken(key: string)
    requires PlainKey(key)
    ensures forall i :: 0 <= i < |KeyName + "=" + ("\"" + key + "\"")| ==> !IsLineBreak((KeyName + "=" + ("\"" + key + "\""))[i])
  {
    var line := KeyName + "=" + ("\"" + key + "\"");
    forall i | 0 <= i < |line| ensures !IsLineBreak(line[i]) {
      if |KeyName| + 2 <= i < |line| - 1 {
        assert line[i] == key[i - |KeyName| - 2];
        if IsLineBreak(line[i]) { LineBreakIsSpace(line[i]); }
      }
    }
  }

  /** A text without a line boundary, followed by one newline, is one line. */
  lemma SingleLine(line: string)
    requires forall i :: 0 <= i < |line| ==> !IsLineBreak(line[i])
    ensures SplitLines(line + "\n") == [line]
  {
    var contents := line + "\n";
    FindFirstAppend(line, "\n", IsLineBreak);
    assert contents[|line| + 1..] == "";
    assert contents[..|line|] == line;
  }

  /** Cleaning a plain key in double quotes gives back the key. */
  lemma CleanQuoted(key: string)
    requires PlainKey(key)
    ensures CleanValue("\"" + key + "\"") == key
  {
    var quoted := "\"" + key + "\"";
    assert forall i :: 0 <= i < |quoted| ==> !IsHash(quoted[i]) by {
      forall i | 0 <= i < |quoted| ensures !IsHash(quoted[i]) {
        if 0 < i < |quoted| - 1 { assert quoted[i] == key[i - 1]; }
      }
    }
    FindFirstAppend(quoted, "", IsHash);
    assert quoted + "" == quoted && quoted[..|quoted|] == quoted;
    StripAt(quoted, IsSpace, 0, |quoted|);
    assert quoted[0..|quoted|] == quoted;
    StripAt(quoted, IsDoubleQuote, 1, |quoted| - 1);
    assert quoted[1..|quoted| - 1] == key;
    StripAt(key, IsSingleQuote, 0, |key|);
    assert key[0..|key|] == key;
  }
}
