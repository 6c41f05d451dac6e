/** The curl command that is logged for a vendor call, and what a POSIX shell makes of it. */
module ShellQuote {
  import opened Domain

  // ---------------------------------------------------------------- the printer

  function Escape(s: string): string {
    if s == "" then ""
    else Escape(s[..|s| - 1]) + if s[|s| - 1] == '\'' then "'\"'\"'" else [s[|s| - 1]]
  }

  function Quote(s: string): string {
    "'" + Escape(s) + "'"
  }

  predicate IsTokenChar(c: char) {
    'a' <= c <= 'z' || 'A' <= c <= 'Z' || '0' <= c <= '9'
    || c in {'!', '#', '$', '%', '&', '\'', '*', '+', '-', '.', '^', '_', '`', '|', '~'}
  }

  /** The case a letter takes in a canonical header name: a capital at the start and after '-'. */
  function CanonicalChar(s: string, i: nat): char
    requires i < |s|
  {
    var first := i == 0 || s[i - 1] == '-';
    if first && 'a' <= s[i] <= 'z' then (s[i] as int - 32) as char
    else if !first && 'A' <= s[i] <= 'Z' then (s[i] as int + 32) as char
    else s[i]
  }

  /** http.CanonicalHeaderKey; a name with other characters is left alone. */
  function Canonical(s: string): string {
    if forall i :: 0 <= i < |s| ==> IsTokenChar(s[i]) then
      seq(|s|, i requires 0 <= i < |s| => CanonicalChar(s, i))
    else s
  }

  type Headers = map<string, seq<string>>

  const CREDENTIAL := "Authorization"
  const PLACEHOLDER := "Bearer $BCA_ACCESS_TOKEN"

  /** http.Header.Get. */
  function Get(h: Headers, name: string): string {
    var key := Canonical(name);
    if key in h && h[key] != [] then h[key][0] else ""
  }

  function LoggedValue(h: Headers, name: string): string {
    if Canonical(name) == CREDENTIAL then PLACEHOLDER else Get(h, name)
  }

  function HeaderLine(h: Headers, name: string): string {
    name + ": " + LoggedValue(h, name)
  }

  /** A blank, and the quoted text. */
  function Quoted(s: string): string {
    " " + Quote(s)
  }

  function HeaderFlags(h: Headers, names: seq<string>): string {
    if names == [] then ""
    else HeaderFlags(h, names[..|names| - 1]) + " -H" + Quoted(HeaderLine(h, names[|names| - 1]))
  }

  function BodyFlag(body: string): string {
    if body == "" then "" else " -d" + Quoted(body)
  }

  function Head(verb: string, url: string): string {
    "curl" + " -sS" + " -X" + (" " + verb) + Quoted(url)
  }

  function Command(verb: string, url: string, h: Headers, names: seq<string>, body: string): string {
    Head(verb, url) + HeaderFlags(h, names) + BodyFlag(body)
  }

  lemma HeadText(verb: string, url: string)
    ensures "curl -sS -X " + verb + " " + Quote(url) == Head(verb, url)
  {
    assert "curl -sS -X " == "curl" + " -sS" + " -X" + " ";
  }

  lemma FlagJoins(start: string, flags: string, line: string)
    ensures start + flags + " -H " + Quote(line) == start + (flags + " -H" + Quoted(line))
  {
    assert " -H " == " -H" + " ";
  }

  lemma HeaderFlagsExtend(h: Headers, names: seq<string>, i: nat)
    requires i < |names|
    ensures HeaderFlags(h, names[..i + 1]) == HeaderFlags(h, names[..i]) + " -H" + Quoted(HeaderLine(h, names[i]))
  {
    assert names[..i + 1][..i] == names[..i];
  }

  lemma HeaderWritten(out: string, head: string, h: Headers, names: seq<string>, i: nat, value: string)
    requires i < |names| && value == LoggedValue(h, names[i])
    requires out == head + HeaderFlags(h, names[..i])
    ensures out + " -H " + Quote(names[i] + ": " + value) == head + HeaderFlags(h, names[..i + 1])
  {
    HeaderFlagsExtend(h, names, i);
    FlagJoins(head, HeaderFlags(h, names[..i]), names[i] + ": " + value);
  }

  lemma BodyWritten(out: string, body: string)
    requires body != ""
    ensures out + " -d " + Quote(body) == out + BodyFlag(body)
  {
    assert " -d " == " -d" + " ";
  }

  /** As it is built; `names` are the header names in sorted order. */
  method CurlCommand(verb: string, url: string, h: Headers, names: seq<string>, body: string) returns (out: string)
    ensures out == Command(verb, url, h, names, body)
  {
    out := "curl -sS -X ";
    out := out + verb;
    out := out + " ";
    out := out + Quote(url);
    HeadText(verb, url);
    ghost var head := Head(verb, url);
    assert head + HeaderFlags(h, names[..0]) == head;
    var i := 0;
    while i < |names|
      invariant i <= |names|
      invariant out == head + HeaderFlags(h, names[..i])
    {
      var value := Get(h, names[i]);
      if Canonical(names[i]) == CREDENTIAL {
        value := PLACEHOLDER;
      }
      HeaderWritten(out, head, h, names, i, value);
      out := out + " -H ";
      out := out + Quote(names[i] + ": " + value);
      i := i + 1;
    }
    assert names[..i] == names;
    if |body| > 0 {
      BodyWritten(out, body);
      out := out + " -d ";
      out := out + Quote(body);
    } else {
      assert out + "" == out;
    }
  }

  /** The arguments the command is meant to pass. */
  function HeaderArguments(h: Headers, names: seq<string>): seq<string> {
    if names == [] then []
    else HeaderArguments(h, names[..|names| - 1]) + ["-H", HeaderLine(h, names[|names| - 1])]
  }

  function Arguments(verb: string, url: string, h: Headers, names: seq<string>, body: string): seq<string> {
    ["curl", "-sS", "-X", verb, url] + HeaderArguments(h, names) + if body == "" then [] else ["-d", body]
  }

  // ---------------------------------------------------------------- the shell

  /** POSIX.1-2017, Shell Command Language, section 2.2: how the current character is quoted. */
  datatype Mode = Unquoted | InSingle | InDouble

  /** `word` is the word being read, if one has begun. Reading stops at anything that is not plain quoting:
      an expansion, an operator, a comment, a pattern or a NUL. */
  datatype Lexer = Reading(mode: Mode, word: Option<string>, words: seq<string>) | Stopped

  const START := Reading(Unquoted, None, [])

  /** A character that stands for itself outside quotes. */
  predicate IsPlain(c: char) {
    'a' <= c <= 'z' || 'A' <= c <= 'Z' || '0' <= c <= '9' || c in {'-', '_', '.', '/', ':', ',', '@', '+', '%'}
  }

  predicate IsBlank(c: char) {
    c == ' ' || c == '\t'
  }

  function Begun(word: Option<string>): string {
    if word.Some? then word.value else ""
  }

  function Feed(l: Lexer, c: char): Lexer {
    if l.Stopped? || c == '\0' then Stopped
    else
      match l.mode
      case Unquoted =>
        if IsBlank(c) then
          if l.word.None? then l else Reading(Unquoted, None, l.words + [l.word.value])
        else if c == '\'' then l.(mode := InSingle, word := Some(Begun(l.word)))
        else if c == '"' then l.(mode := InDouble, word := Some(Begun(l.word)))
        else if IsPlain(c) then l.(word := Some(Begun(l.word) + [c]))
        else Stopped
      // Section 2.2.2: every character but the closing quote is literal.
      case InSingle =>
        if c == '\'' then l.(mode := Unquoted) else l.(word := Some(Begun(l.word) + [c]))
      // Section 2.2.3: '$', '`' and '\' keep their special meaning.
      case InDouble =>
        if c == '"' then l.(mode := Unquoted)
        else if c in {'$', '`', '\\'} then Stopped
        else l.(word := Some(Begun(l.word) + [c]))
  }

  function FeedAll(l: Lexer, s: string): Lexer {
    if s == "" then l else Feed(FeedAll(l, s[..|s| - 1]), s[|s| - 1])
  }

  /** The words of a simple command; None when it is not one, or a quote is left open. */
  function Split(s: string): Option<seq<string>> {
    var l := FeedAll(START, s);
    if l.Stopped? || l.mode != Unquoted then None
    else Some(if l.word.None? then l.words else l.words + [l.word.value])
  }

  // ---------------------------------------------------------------- round trip

  predicate NulFree(s: string) {
    '\0' !in s
  }

  /** A non-empty word of plain characters. */
  predicate PlainWord(s: string) {
    s != "" && forall i :: 0 <= i < |s| ==> IsPlain(s[i])
  }

  lemma {:induction false} FeedConcat(l: Lexer, a: string, b: string)
    ensures FeedAll(l, a + b) == FeedAll(FeedAll(l, a), b)
  {
    if b == "" {
      assert a + b == a;
    } else {
      assert (a + b)[..|a + b| - 1] == a + b[..|b| - 1];
      FeedConcat(l, a, b[..|b| - 1]);
    }
  }

  /** Inside single quotes the escaped text reads as the text. */
  lemma {:induction false} EscapeReads(words: seq<string>, w: string, s: string)
    requires NulFree(s)
    ensures FeedAll(Reading(InSingle, Some(w), words), Escape(s)) == Reading(InSingle, Some(w + s), words)
  {
    var l := Reading(InSingle, Some(w), words);
    if s == "" {
      assert w + s == w;
    } else {
      var n := |s| - 1;
      EscapeReads(words, w, s[..n]);
      assert w + s == w + s[..n] + [s[n]];
      var before := Reading(InSingle, Some(w + s[..n]), words);
      if s[n] == '\'' {
        FeedConcat(l, Escape(s[..n]), "'\"'\"'");
        ReopenedQuote(words, w + s[..n]);
      } else {
        FeedConcat(l, Escape(s[..n]), [s[n]]);
        assert [s[n]][..0] == "";
        assert FeedAll(before, [s[n]]) == Feed(FeedAll(before, ""), s[n]);
      }
    }
  }

  /** A quote closed, a quote in double quotes, and the quote reopened: one literal quote. */
  lemma ReopenedQuote(words: seq<string>, w: string)
    ensures FeedAll(Reading(InSingle, Some(w), words), "'\"'\"'") == Reading(InSingle, Some(w + "'"), words)
  {
    var l, q := Reading(InSingle, Some(w), words), "'\"'\"'";
    assert q[..4] == "'\"'\"" && q[..4][..3] == "'\"'" && q[..4][..3][..2] == "'\"" && q[..4][..3][..2][..1] == "'"
           && q[..4][..3][..2][..1][..0] == "";
    assert FeedAll(l, "'") == Feed(FeedAll(l, ""), '\'');
    assert FeedAll(l, "'\"") == Feed(FeedAll(l, "'"), '"');
    assert FeedAll(l, "'\"'") == Feed(FeedAll(l, "'\""), '\'');
    assert FeedAll(l, "'\"'\"") == Feed(FeedAll(l, "'\"'"), '"');
  }

  lemma FeedOne(l: Lexer, c: char)
    ensures FeedAll(l, [c]) == Feed(l, c)
  {
    assert [c][..0] == "";
    assert FeedAll(l, "") == l;
  }

  /** A quoted string is one word, whatever it contains. */
  lemma QuoteReads(words: seq<string>, s: string)
    requires NulFree(s)
    ensures FeedAll(Reading(Unquoted, None, words), Quote(s)) == Reading(Unquoted, Some(s), words)
  {
    var l := Reading(Unquoted, None, words);
    FeedConcat(l, "'" + Escape(s), "'");
    FeedConcat(l, "'", Escape(s));
    FeedOne(l, '\'');
    EscapeReads(words, "", s);
    assert "" + s == s;
    FeedOne(Reading(InSingle, Some(s), words), '\'');
  }

  lemma {:induction false} PlainReads(words: seq<string>, s: string)
    requires PlainWord(s)
    ensures FeedAll(Reading(Unquoted, None, words), s) == Reading(Unquoted, Some(s), words)
  {
    var l, n := Reading(Unquoted, None, words), |s| - 1;
    if n == 0 {
      assert s == [s[0]];
      FeedOne(l, s[0]);
      assert "" + [s[0]] == s;
    } else {
      PlainReads(words, s[..n]);
      assert s == s[..n] + [s[n]];
    }
  }

  /** A blank ends the word. */
  lemma BlankReads(words: seq<string>, w: string)
    ensures FeedAll(Reading(Unquoted, Some(w), words), " ") == Reading(Unquoted, None, words + [w])
  {
    FeedOne(Reading(Unquoted, Some(w), words), ' ');
  }

  /** Everything the lexer has read, the word in progress included. */
  function AllWords(l: Lexer): seq<string>
    requires l.Reading?
  {
    if l.word.None? then l.words else l.words + [l.word.value]
  }

  predicate AfterWord(l: Lexer) {
    l.Reading? && l.mode == Unquoted && l.word.Some?
  }

  /** Reading `text` completes the words read so far with `more`. */
  predicate Reads(l: Lexer, text: string, more: seq<string>)
    requires AfterWord(l)
  {
    var r := FeedAll(l, text);
    AfterWord(r) && AllWords(r) == AllWords(l) + more
  }

  lemma PlainAppends(l: Lexer, s: string)
    requires AfterWord(l) && PlainWord(s)
    ensures Reads(l, " " + s, [s])
  {
    FeedConcat(l, " ", s);
    BlankReads(l.words, l.word.value);
    PlainReads(AllWords(l), s);
  }

  lemma QuotedAppends(l: Lexer, s: string)
    requires AfterWord(l) && NulFree(s)
    ensures Reads(l, Quoted(s), [s])
  {
    FeedConcat(l, " ", Quote(s));
    BlankReads(l.words, l.word.value);
    QuoteReads(AllWords(l), s);
  }

  lemma ReadsThen(l: Lexer, a: string, more: seq<string>, b: string, last: seq<string>)
    requires AfterWord(l) && Reads(l, a, more) && Reads(FeedAll(l, a), b, last)
    ensures Reads(l, a + b, more + last)
  {
    FeedConcat(l, a, b);
    assert AllWords(l) + more + last == AllWords(l) + (more + last);
  }

  lemma FlagAppends(l: Lexer, flag: string, s: string)
    requires AfterWord(l) && PlainWord(flag) && NulFree(s)
    ensures Reads(l, (" " + flag) + Quoted(s), [flag, s])
  {
    PlainAppends(l, flag);
    QuotedAppends(FeedAll(l, " " + flag), s);
    ReadsThen(l, " " + flag, [flag], Quoted(s), [s]);
  }

  lemma HeaderAppends(l: Lexer, flags: string, args: seq<string>, flag: string, line: string)
    requires AfterWord(l) && Reads(l, flags, args) && PlainWord(flag) && NulFree(line)
    ensures Reads(l, flags + (" " + flag) + Quoted(line), args + [flag, line])
  {
    FlagAppends(FeedAll(l, flags), flag, line);
    ReadsThen(l, flags, args, (" " + flag) + Quoted(line), [flag, line]);
    assert flags + (" " + flag) + Quoted(line) == flags + ((" " + flag) + Quoted(line));
  }

  lemma NothingReads(l: Lexer)
    requires AfterWord(l)
    ensures Reads(l, "", [])
  {
    assert AllWords(l) + [] == AllWords(l);
  }

  lemma {:induction false} HeadersAppend(l: Lexer, h: Headers, names: seq<string>)
    requires AfterWord(l)
    requires forall i :: 0 <= i < |names| ==> NulFree(HeaderLine(h, names[i]))
    ensures Reads(l, HeaderFlags(h, names), HeaderArguments(h, names))
  {
    hide HeaderLine, Reads, Quoted, FeedAll, NulFree, PlainWord;
    if names == [] {
      NothingReads(l);
    } else {
      var n := |names| - 1;
      HeadersAppend(l, h, names[..n]);
      HeaderFlagIsPlain();
      HeaderAppends(l, HeaderFlags(h, names[..n]), HeaderArguments(h, names[..n]), "-H", HeaderLine(h, names[n]));
    }
  }

  lemma HeaderFlagIsPlain()
    ensures PlainWord("-H") && " " + "-H" == " -H"
  {
    assert " " + "-H" == " -H";
  }

  lemma BodyAppends(l: Lexer, body: string)
    requires AfterWord(l) && NulFree(body)
    ensures Reads(l, BodyFlag(body), if body == "" then [] else ["-d", body])
  {
    if body == "" {
      NothingReads(l);
    } else {
      FlagAppends(l, "-d", body);
      assert " " + "-d" == " -d";
    }
  }

  lemma ThreeWordsAndQuoted(l: Lexer, a: string, b: string, c: string, d: string)
    requires AfterWord(l) && PlainWord(a) && PlainWord(b) && PlainWord(c) && NulFree(d)
    ensures Reads(l, " " + a + (" " + b) + (" " + c) + Quoted(d), [a] + [b] + [c] + [d])
  {
    PlainAppends(l, a);
    PlainAppends(FeedAll(l, " " + a), b);
    ReadsThen(l, " " + a, [a], " " + b, [b]);
    PlainAppends(FeedAll(l, " " + a + (" " + b)), c);
    ReadsThen(l, " " + a + (" " + b), [a] + [b], " " + c, [c]);
    QuotedAppends(FeedAll(l, " " + a + (" " + b) + (" " + c)), d);
    ReadsThen(l, " " + a + (" " + b) + (" " + c), [a] + [b] + [c], Quoted(d), [d]);
  }

  lemma HeadReads(verb: string, url: string)
    requires PlainWord(verb) && NulFree(url)
    ensures var l := FeedAll(START, Head(verb, url));
            AfterWord(l) && AllWords(l) == ["curl", "-sS", "-X", verb, url]
  {
    PlainReads([], "curl");
    var rest := " " + "-sS" + (" " + "-X") + (" " + verb) + Quoted(url);
    ThreeWordsAndQuoted(Reading(Unquoted, Some("curl"), []), "-sS", "-X", verb, url);
    FeedConcat(START, "curl", rest);
    HeadJoins(verb, url);
  }

  lemma HeadJoins(verb: string, url: string)
    ensures Head(verb, url) == "curl" + (" " + "-sS" + (" " + "-X") + (" " + verb) + Quoted(url))
  {
    assert " " + "-sS" == " -sS" && " " + "-X" == " -X";
  }

  lemma SplitsInParts(head: string, a: string, more: seq<string>, b: string, last: seq<string>)
    requires AfterWord(FeedAll(START, head)) && Reads(FeedAll(START, head), a, more)
    requires Reads(FeedAll(FeedAll(START, head), a), b, last)
    ensures Split(head + a + b) == Some(AllWords(FeedAll(START, head)) + more + last)
  {
    FeedConcat(START, head, a);
    FeedConcat(START, head + a, b);
  }

  /** The shell splits the logged command back into exactly the intended arguments, for every URL, header and
      body without a NUL. */
  lemma CommandSplitsBack(verb: string, url: string, h: Headers, names: seq<string>, body: string)
    requires PlainWord(verb) && NulFree(url) && NulFree(body)
    requires forall i :: 0 <= i < |names| ==> NulFree(HeaderLine(h, names[i]))
    ensures Split(Command(verb, url, h, names, body)) == Some(Arguments(verb, url, h, names, body))
  {
    HeadReads(verb, url);
    var head, flags := Head(verb, url), HeaderFlags(h, names);
    HeadersAppend(FeedAll(START, head), h, names);
    BodyAppends(FeedAll(FeedAll(START, head), flags), body);
    SplitsInParts(head, flags, HeaderArguments(h, names), BodyFlag(body), if body == "" then [] else ["-d", body]);
  }

  // ---------------------------------------------------------------- the credential

  /** The command does not depend on the credential: two requests that agree on every other header print the same. */
  lemma CredentialNeverPrinted(verb: string, url: string, h: Headers, k: Headers, names: seq<string>,
                              body: string)
    requires forall key :: key != CREDENTIAL ==> (key in h <==> key in k) && (key in h ==> h[key] == k[key])
    ensures Command(verb, url, h, names, body) == Command(verb, url, k, names, body)
  {
    FlagsAgree(h, k, names);
  }

  lemma {:induction false} FlagsAgree(h: Headers, k: Headers, names: seq<string>)
    requires forall key :: key != CREDENTIAL ==> (key in h <==> key in k) && (key in h ==> h[key] == k[key])
    ensures HeaderFlags(h, names) == HeaderFlags(k, names)
  {
    hide Quoted;
    if names != [] {
      FlagsAgree(h, k, names[..|names| - 1]);
    }
  }

  lemma {:induction false} HeaderArgumentsAt(h: Headers, names: seq<string>, k: nat)
    requires k < |names|
    ensures var args := HeaderArguments(h, names);
            |args| == 2 * |names| && args[2 * k] == "-H" && args[2 * k + 1] == HeaderLine(h, names[k])
  {
    var n := |names| - 1;
    hide HeaderLine;
    if n > 0 {
      HeaderArgumentsAt(h, names[..n], if k < n then k else 0);
    } else {
      assert HeaderArguments(h, names[..0]) == [];
    }
  }

  /** Wherever the credential stands among the headers, whatever the case of its name, the placeholder is inside
      single quotes, so the shell passes it on literally: exporting the variable it names does not put the token
      into the request. */
  lemma PlaceholderIsNotExpanded(verb: string, url: string, h: Headers, names: seq<string>, body: string, k: nat)
    requires PlainWord(verb) && NulFree(url) && NulFree(body)
    requires forall i :: 0 <= i < |names| ==> NulFree(HeaderLine(h, names[i]))
    requires k < |names| && Canonical(names[k]) == CREDENTIAL
    ensures var words := Split(Command(verb, url, h, names, body));
            && words.Some? && 5 + 2 * |names| <= |words.value|
            && words.value[5 + 2 * k] == "-H" && words.value[6 + 2 * k] == names[k] + ": Bearer $BCA_ACCESS_TOKEN"
  {
    hide *;
    CommandSplitsBack(verb, url, h, names, body);
    ArgumentsAt(verb, url, h, names, body, k);
    CredentialLine(h, names[k]);
  }

  /** Every other header reads back under the name it was listed by, with the first value stored under the canonical
      name, or an empty one when none is. */
  lemma HeaderReadsBack(verb: string, url: string, h: Headers, names: seq<string>, body: string, k: nat)
    requires PlainWord(verb) && NulFree(url) && NulFree(body)
    requires forall i :: 0 <= i < |names| ==> NulFree(HeaderLine(h, names[i]))
    requires k < |names| && Canonical(names[k]) != CREDENTIAL
    ensures var words, key := Split(Command(verb, url, h, names, body)), Canonical(names[k]);
            && words.Some? && 5 + 2 * |names| <= |words.value|
            && words.value[5 + 2 * k] == "-H"
            && words.value[6 + 2 * k] == names[k] + ": " + if key in h && |h[key]| > 0 then h[key][0] else ""
  {
    hide *;
    CommandSplitsBack(verb, url, h, names, body);
    ArgumentsAt(verb, url, h, names, body, k);
    OtherLine(h, names[k]);
  }

  lemma OtherLine(h: Headers, name: string)
    requires Canonical(name) != CREDENTIAL
    ensures var key := Canonical(name);
            HeaderLine(h, name) == name + ": " + if key in h && |h[key]| > 0 then h[key][0] else ""
  {
  }

  /** Where the `k`-th header stands among the arguments. */
  lemma ArgumentsAt(verb: string, url: string, h: Headers, names: seq<string>, body: string, k: nat)
    requires k < |names|
    ensures var args := Arguments(verb, url, h, names, body);
            && 5 + 2 * |names| <= |args|
            && args[5 + 2 * k] == "-H" && args[6 + 2 * k] == HeaderLine(h, names[k])
  {
    hide HeaderArguments, HeaderLine;
    HeaderArgumentsAt(h, names, k);
    var head, last := ["curl", "-sS", "-X", verb, url], if body == "" then [] else ["-d", body];
    WordsBetween(head, HeaderArguments(h, names), last, 2 * k);
    WordsBetween(head, HeaderArguments(h, names), last, 2 * k + 1);
  }

  lemma WordsBetween(head: seq<string>, words: seq<string>, last: seq<string>, i: nat)
    requires i < |words|
    ensures (head + words + last)[|head| + i] == words[i]
  {
  }

  lemma CredentialLine(h: Headers, name: string)
    requires Canonical(name) == CREDENTIAL
    ensures HeaderLine(h, name) == name + ": Bearer $BCA_ACCESS_TOKEN"
  {
    assert ": Bearer $BCA_ACCESS_TOKEN" == ": " + "Bearer $BCA_ACCESS_TOKEN";
  }

  function LowerCase(c: char): char {
    if 'A' <= c <= 'Z' then (c as int + 32) as char else c
  }

  const LOWER_CREDENTIAL := "authorization"

  lemma CredentialLetter(i: nat)
    requires i < 13
    ensures |CREDENTIAL| == 13 == |LOWER_CREDENTIAL| && 'a' <= LOWER_CREDENTIAL[i] <= 'z'
    ensures LowerCase(CREDENTIAL[i]) == LOWER_CREDENTIAL[i]
    ensures CREDENTIAL[i] == if i == 0 then 'A' else LOWER_CREDENTIAL[i]
  {
  }

  lemma CanonicalKeepsLetters(name: string, i: nat)
    requires i < |name| == |Canonical(name)|
    ensures LowerCase(Canonical(name)[i]) == LowerCase(name[i])
  {
  }

  lemma SpelledOutIsCanonical(name: string)
    requires |name| == 13 && forall i :: 0 <= i < 13 ==> LowerCase(name[i]) == LOWER_CREDENTIAL[i]
    ensures Canonical(name) == CREDENTIAL
  {
    hide LowerCase, CanonicalChar;
    forall i | 0 <= i < 13 ensures IsTokenChar(name[i]) && CanonicalChar(name, i) == CREDENTIAL[i] {
      CredentialLetter(i);
      if i > 0 { CredentialLetter(i - 1); }
      LetterOfCredential(name, i);
    }
    CredentialLetter(0);
  }

  lemma LetterOfCredential(name: string, i: nat)
    requires i < |name| == 13 && 'a' <= LOWER_CREDENTIAL[i] <= 'z' && LowerCase(name[i]) == LOWER_CREDENTIAL[i]
    requires i > 0 ==> 'a' <= LOWER_CREDENTIAL[i - 1] <= 'z' && LowerCase(name[i - 1]) == LOWER_CREDENTIAL[i - 1]
    requires i == 0 ==> LOWER_CREDENTIAL[0] == 'a'
    ensures IsTokenChar(name[i]) && CanonicalChar(name, i) == if i == 0 then 'A' else LOWER_CREDENTIAL[i]
  {
  }

  /** The placeholder replaces the header's value under every spelling that differs in case only, and under no other
      name. */
  lemma CredentialInAnyCase(name: string)
    ensures Canonical(name) == CREDENTIAL <==>
            |name| == 13 && forall i :: 0 <= i < 13 ==> LowerCase(name[i]) == "authorization"[i]
  {
    hide LowerCase, CanonicalChar;
    CredentialLetter(0);
    if |name| == 13 && forall i :: 0 <= i < 13 ==> LowerCase(name[i]) == LOWER_CREDENTIAL[i] {
      SpelledOutIsCanonical(name);
    }
    if Canonical(name) == CREDENTIAL {
      forall i | 0 <= i < 13 ensures LowerCase(name[i]) == LOWER_CREDENTIAL[i] {
        CredentialLetter(i);
        CanonicalKeepsLetters(name, i);
      }
    }
  }

  /** The header's own name is among those the placeholder replaces. */
  lemma CredentialIsCanonical()
    ensures Canonical(CREDENTIAL) == CREDENTIAL
  {
    var s := CREDENTIAL;
    assert forall i :: 1 <= i < |s| ==> 'a' <= s[i] <= 'z';
    assert s[0] == 'A';
    assert forall i :: 0 <= i < |s| ==> CanonicalChar(s, i) == s[i];
  }
}
