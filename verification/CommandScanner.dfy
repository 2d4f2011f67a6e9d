/** The command-line scanner `parseNightMareMessage2`, and a printer it inverts. */
module CommandScanner {
  import opened Common

  const MAX_ARGS := 5
  const MAX_MESSAGE_LEN := 512

  datatype Message = Message(command: string, subcommand: string, args: seq<string>, argc: nat,
                             valid: bool, error: Complaint)

  /** Why a line is refused. */
  datatype Complaint = Nothing | UnterminatedFence | UnterminatedQuote | EmptyCommand | TooManyArguments | TooLong(length: nat)

  datatype LexState = Sep | Word | Quoted

  /** Where a scan ends: a complaint, or the words filed so far and the one still open. */
  datatype Lexed = Bad(words: seq<string>, error: Complaint) | Open(state: LexState, token: string, words: seq<string>)

  predicate IsSeparator(c: char) {
    c == ' ' || c == '\t' || c == '\r' || c == '\n' || c == '\U{000B}' || c == '\U{000C}'
  }

  function UpperChar(c: char): char {
    if 'a' <= c <= 'z' then (c as int - 32) as char else c
  }

  function Upper(s: string): string {
    seq(|s|, i requires 0 <= i < |s| => UpperChar(s[i]))
  }

  // ----- backtick runs

  /** How many backticks stand at position i. */
  function TickRun(s: string, i: nat): (n: nat)
    requires i <= |s|
    ensures i + n <= |s|
    ensures forall k :: i <= k < i + n ==> s[k] == '`'
    ensures i + n < |s| ==> s[i + n] != '`'
    decreases |s| - i
  {
    if i == |s| || s[i] != '`' then 0 else 1 + TickRun(s, i + 1)
  }

  /** A maximal run of exactly n backticks starts at position i of the text that begins at `from`. */
  predicate IsRun(s: string, from: nat, i: nat, n: nat) {
    && n > 0 && from <= i && i + n <= |s|
    && (forall k :: i <= k < i + n ==> s[k] == '`')
    && (i == from || s[i - 1] != '`')
    && (i + n == |s| || s[i + n] != '`')
  }

  /** Where a fence of n backticks whose content starts at i closes, scanning run by run. */
  function FenceEnd(s: string, i: nat, n: nat): (end: Option<nat>)
    requires i <= |s|
    ensures end.Some? ==> i <= end.value && end.value + n <= |s|
    decreases |s| - i
  {
    if i == |s| then None
    else if s[i] != '`' then FenceEnd(s, i + 1, n)
    else if TickRun(s, i) == n then Some(i)
    else FenceEnd(s, i + TickRun(s, i), n)
  }

  /** A fence of n backticks closes at the first maximal run of exactly n, and only there. */
  lemma {:induction false} FenceClosesAtFirstRun(s: string, i: nat, n: nat)
    requires i <= |s| && n > 0
    ensures FenceEnd(s, i, n).Some? ==>
              && IsRun(s, i, FenceEnd(s, i, n).value, n)
              && forall k: nat :: k < FenceEnd(s, i, n).value ==> !IsRun(s, i, k, n)
    ensures FenceEnd(s, i, n).None? ==> forall k: nat :: !IsRun(s, i, k, n)
    decreases |s| - i
  {
    if i < |s| && !(s[i] == '`' && TickRun(s, i) == n) {
      var skip := if s[i] != '`' then 1 else TickRun(s, i);
      FenceClosesAtFirstRun(s, i + skip, n);
      forall k: nat ensures k < i + skip ==> !IsRun(s, i, k, n)
                    ensures k >= i + skip ==> (IsRun(s, i, k, n) <==> IsRun(s, i + skip, k, n))
      {
        assert s[i] == '`' && n < skip ==> s[i + n] == '`';
      }
    }
  }

  // ----- the grammar, character by character

  /** The characters of s from one position up to another. */
  function Content(s: string, from: nat, to: nat): (t: string)
    requires from <= to <= |s|
    ensures |t| == to - from
  {
    seq(to - from, k requires 0 <= k < to - from => s[from + k])
  }

  function Started(state: LexState): LexState {
    if state == Sep then Word else state
  }

  /** Reads s from position i and a given state, with one token half read and some words already filed. */
  function Lex(s: string, i: nat, state: LexState, token: string, words: seq<string>): Lexed
    requires i <= |s|
    decreases |s| - i
  {
    if i == |s| then Open(state, token, words)
    else if s[i] == '\\' then
      if i + 1 < |s| && (s[i + 1] == '"' || s[i + 1] == '`')
      then Lex(s, i + 2, Started(state), token + [s[i + 1]], words)
      else Lex(s, i + 1, Started(state), token + ['\\'], words)
    else if s[i] == '`' && state != Quoted then
      var n := TickRun(s, i);
      var end := FenceEnd(s, i + n, n);
      if end.None? then Bad(words, UnterminatedFence)
      else Lex(s, end.value + n, Word, token + Content(s, i + n, end.value), words)
    else if s[i] == '"' then
      Lex(s, i + 1, if state == Quoted then Word else Quoted, token, words)
    else if state != Quoted && IsSeparator(s[i]) then
      if state == Sep then Lex(s, i + 1, Sep, token, words)
      else if |words| > MAX_ARGS then Bad(words, TooManyArguments)
      else Lex(s, i + 1, Sep, "", words + [token])
    else Lex(s, i + 1, Started(state), token + [s[i]], words)
  }

  /** Slot 0 is the command, the next five are arguments; unused slots are empty. */
  function Slots(words: seq<string>): (slots: seq<string>)
    ensures |slots| == MAX_ARGS + 1
  {
    seq(MAX_ARGS + 1, k => if 0 <= k < |words| then words[k] else "")
  }

  function Rejected(words: seq<string>, error: Complaint): Message {
    Message(Slots(words)[0], "", Slots(words)[1..], 0, false, error)
  }

  function Accepted(words: seq<string>): Message
    requires words != []
  {
    Message(Upper(words[0]), Upper(Slots(words)[1]), Slots(words)[1..], |words| - 1, true, Nothing)
  }

  /** What the end of the line makes of a scan. */
  function Finish(lexed: Lexed): Message {
    match lexed
    case Bad(words, error) => Rejected(words, error)
    case Open(Quoted, _, words) => Rejected(words, UnterminatedQuote)
    case Open(Word, token, words) =>
      if |words| > MAX_ARGS then Rejected(words, TooManyArguments) else Accepted(words + [token])
    case Open(Sep, _, words) =>
      if words == [] then Rejected(words, EmptyCommand) else Accepted(words)
  }

  function Parse(message: string): Message {
    if |message| > MAX_MESSAGE_LEN then Rejected([], TooLong(|message|))
    else Finish(Lex(message, 0, Sep, "", []))
  }

  // ----- the scanner as it is written

  method StoreToken(slots: seq<string>, slot: nat, token: string, ghost words: seq<string>)
    returns (ok: bool, filed: seq<string>)
    requires |words| == slot <= MAX_ARGS + 1 && slots == Slots(words)
    ensures ok <==> slot <= MAX_ARGS
    ensures ok ==> filed == Slots(words + [token])
    ensures !ok ==> filed == slots
  {
    if slot > MAX_ARGS {
      return false, slots;
    }
    ok, filed := true, slots[slot := token];
    assert filed == Slots(words + [token]);
  }

  /** The inner loop of a fence: copies content until a run of exactly `fence` backticks. */
  method ReadFence(message: string, start: nat, fence: nat, token: string)
    returns (closed: bool, next: nat, grown: string)
    requires start <= |message|
    ensures closed <==> FenceEnd(message, start, fence).Some?
    ensures closed ==> next == FenceEnd(message, start, fence).value + fence <= |message|
    ensures closed ==> grown == token + Content(message, start, next - fence)
  {
    var j := start;
    grown := token;
    while j < |message|
      invariant start <= j <= |message|
      invariant grown == token + Content(message, start, j)
      invariant FenceEnd(message, start, fence) == FenceEnd(message, j, fence)
    {
      if message[j] != '`' {
        assert Content(message, start, j + 1) == Content(message, start, j) + [message[j]];
        grown := grown + [message[j]];
        j := j + 1;
      } else {
        var run := CountTicks(message, j);
        if run == fence {
          return true, j + fence, grown;
        }
        assert Content(message, start, j + run) == Content(message, start, j) + message[j..j + run];
        grown := grown + message[j..j + run];
        j := j + run;
      }
    }
    return false, j, grown;
  }

  method CountTicks(message: string, i: nat) returns (n: nat)
    requires i < |message| && message[i] == '`'
    ensures n == TickRun(message, i) > 0
  {
    n := 1;
    while i + n < |message| && message[i + n] == '`'
      invariant 1 <= n && i + n <= |message|
      invariant TickRun(message, i) == n + TickRun(message, i + n)
    {
      n := n + 1;
    }
  }

  /** A backtick outside quotes: everything up to its closing fence, verbatim. */
  method ScanFence(message: string, at: nat, ghost state: LexState, token: string, ghost words: seq<string>)
    returns (closed: bool, next: nat, grown: string)
    requires at < |message| && message[at] == '`' && state != Quoted
    ensures closed ==> at < next <= |message|
    ensures Lex(message, at, state, token, words) ==
            if closed then Lex(message, next, Word, grown, words) else Bad(words, UnterminatedFence)
  {
    var fence := CountTicks(message, at);
    closed, next, grown := ReadFence(message, at + fence, fence, token);
  }

  method ParseNightMareMessage2(message: string) returns (msg: Message)
    ensures msg == Parse(message)
  {
    if |message| > MAX_MESSAGE_LEN {
      return Rejected([], TooLong(|message|));
    }
    var state, token, slot, slots := Sep, "", 0, Slots([]);
    ghost var words: seq<string> := [];
    var i := 0;
    while i < |message|
      invariant i <= |message|
      invariant |words| == slot <= MAX_ARGS + 1 && slots == Slots(words)
      invariant Lex(message, i, state, token, words) == Lex(message, 0, Sep, "", [])
    {
      var c := message[i];
      if c == '\\' {
        if i + 1 < |message| && (message[i + 1] == '"' || message[i + 1] == '`') {
          i := i + 1;
          token := token + [message[i]];
        } else {
          token := token + ['\\'];
        }
        if state == Sep {
          state := Word;
        }
        i := i + 1;
      } else if c == '`' && state != Quoted {
        var closed, next, grown := ScanFence(message, i, state, token, words);
        if !closed {
          return Message(slots[0], "", slots[1..], 0, false, UnterminatedFence);
        }
        i, token := next, grown;
        if state == Sep {
          state := Word;
        }
      } else if c == '"' {
        state := if state == Quoted then Word else Quoted;
        i := i + 1;
      } else if state != Quoted && IsSeparator(c) {
        if state == Word {
          var ok, filed := StoreToken(slots, slot, token, words);
          if !ok {
            return Message(slots[0], "", slots[1..], 0, false, TooManyArguments);
          }
          slots, slot, words := filed, slot + 1, words + [token];
          token, state := "", Sep;
        }
        i := i + 1;
      } else {
        token := token + [c];
        if state == Sep {
          state := Word;
        }
        i := i + 1;
      }
    }
    msg := CloseLine(state, token, slots, slot, words);
  }

  /** What follows the loop: the last token, and the complaints about how the line ended. */
  method CloseLine(state: LexState, token: string, slots: seq<string>, slot: nat, ghost words: seq<string>)
    returns (msg: Message)
    requires |words| == slot <= MAX_ARGS + 1 && slots == Slots(words)
    ensures msg == Finish(Open(state, token, words))
  {
    if state == Quoted {
      return Message(slots[0], "", slots[1..], 0, false, UnterminatedQuote);
    }
    var filed, count := slots, slot;
    if state == Word {
      var ok;
      ok, filed := StoreToken(slots, slot, token, words);
      if !ok {
        return Message(slots[0], "", slots[1..], 0, false, TooManyArguments);
      }
      count := slot + 1;
    }
    if count == 0 {
      return Message(filed[0], "", filed[1..], 0, false, EmptyCommand);
    }
    msg := Message(Upper(filed[0]), Upper(filed[1]), filed[1..], count - 1, true, Nothing);
  }

  // ----- a printer the scanner inverts

  /** t stands at position i of s. */
  predicate At(s: string, i: nat, t: string) {
    i + |t| <= |s| && forall k :: 0 <= k < |t| ==> s[i + k] == t[k]
  }

  lemma {:induction false} AtSplit(s: string, i: nat, a: string, b: string)
    requires At(s, i, a + b)
    ensures At(s, i, a) && At(s, i + |a|, b)
  {
    forall k | 0 <= k < |a| ensures s[i + k] == a[k] { assert (a + b)[k] == a[k]; }
    forall k | 0 <= k < |b| ensures s[i + |a| + k] == b[k] { assert (a + b)[|a| + k] == b[k]; }
  }

  lemma {:induction false} AtTail(s: string, i: nat, t: string)
    requires At(s, i, t) && t != ""
    ensures s[i] == t[0] && At(s, i + 1, t[1..])
  {
    assert s[i + 0] == t[0];
    forall k | 0 <= k < |t[1..]| ensures s[i + 1 + k] == t[1..][k] {
      assert s[i + (k + 1)] == t[k + 1];
    }
  }

  lemma {:induction false} AtRepeat(s: string, i: nat, c: char, n: nat)
    requires At(s, i, Repeat(c, n)) && n > 0
    ensures s[i] == c && At(s, i + 1, Repeat(c, n - 1)) && (n > 1 ==> s[i + 1] == c)
  {
    AtTail(s, i, Repeat(c, n));
    assert Repeat(c, n)[1..] == Repeat(c, n - 1);
    if n > 1 { AtTail(s, i + 1, Repeat(c, n - 1)); }
  }

  predicate IsDelimiter(c: char) {
    c == '"' || c == '`'
  }

  /** Writes t for the inside of a quoted section: a backslash before each delimiter. */
  function Escape(t: string): (e: string)
    ensures t != "" ==> e != "" && !IsDelimiter(e[0])
    ensures t == "" ==> e == ""
  {
    if t == "" then ""
    else (if IsDelimiter(t[0]) then ['\\', t[0]] else [t[0]]) + Escape(t[1..])
  }

  /** How many backslashes t ends with. */
  function TrailingSlashes(t: string): (n: nat)
    ensures n <= |t|
    ensures forall k :: |t| - n <= k < |t| ==> t[k] == '\\'
    ensures n < |t| ==> t[|t| - n - 1] != '\\'
  {
    if t == "" || t[|t| - 1] != '\\' then 0 else 1 + TrailingSlashes(t[..|t| - 1])
  }

  function Repeat(c: char, n: nat): string {
    seq(n, _ => c)
  }

  datatype Style = Bare | InQuotes | InFence(ticks: nat)

  /** A text as it is; quoted, with its trailing backslashes after the closing quote; or fenced, verbatim. */
  function Print(t: string, style: Style): string {
    match style
    case Bare => t
    case InQuotes =>
      var n := TrailingSlashes(t);
      "\"" + (Escape(t[..|t| - n]) + ("\"" + Repeat('\\', n)))
    case InFence(n) => Repeat('`', n) + (t + Repeat('`', n))
  }

  /** Any text may be quoted. A bare one has neither separators nor delimiters, backslashes being ordinary there; a fence
      suits content with no run of its own length and no backtick at an end. */
  predicate Suits(t: string, style: Style) {
    match style
    case Bare => t != "" && forall k :: 0 <= k < |t| ==> !IsSeparator(t[k]) && !IsDelimiter(t[k])
    case InQuotes => true
    case InFence(n) =>
      && n > 0 && t != "" && t[0] != '`' && t[|t| - 1] != '`'
      && forall k: nat :: k < |t| ==> !IsRun(t, 0, k, n)
  }

  /** What may stand right after a printed text: no delimiter after a backslash, and no backtick after a fence. */
  predicate MayFollow(s: string, j: nat, t: string, style: Style)
    requires j <= |s|
  {
    j == |s|
    || (if style.InFence? then s[j] != '`' else t != "" && t[|t| - 1] == '\\' ==> !IsDelimiter(s[j]))
  }

  lemma {:induction false} LexEscaped(s: string, i: nat, t: string, token: string, words: seq<string>)
    requires At(s, i, Escape(t))
    requires var j := i + |Escape(t)|; t == "" || t[|t| - 1] != '\\' || j == |s| || !IsDelimiter(s[j])
    ensures Lex(s, i, Quoted, token, words) == Lex(s, i + |Escape(t)|, Quoted, token + t, words)
    decreases |t|
  {
    if t == "" {
      assert token + t == token;
    } else {
      var head := if IsDelimiter(t[0]) then ['\\', t[0]] else [t[0]];
      AtSplit(s, i, head, Escape(t[1..]));
      assert s[i] == head[0];
      if IsDelimiter(t[0]) {
        assert s[i + 1] == head[1];
      } else if t[0] == '\\' && |t| > 1 {
        assert s[i + 1] == s[i + |head| + 0] == Escape(t[1..])[0];
      }
      LexEscaped(s, i + |head|, t[1..], token + [t[0]], words);
      assert token + [t[0]] + t[1..] == token + t;
    }
  }

  lemma {:induction false} LexSlashes(s: string, i: nat, n: nat, token: string, words: seq<string>)
    requires At(s, i, Repeat('\\', n))
    requires n == 0 || i + n == |s| || !IsDelimiter(s[i + n])
    ensures Lex(s, i, Word, token, words) == Lex(s, i + n, Word, token + Repeat('\\', n), words)
    decreases n
  {
    if n == 0 {
      assert token + Repeat('\\', 0) == token;
    } else {
      AtRepeat(s, i, '\\', n);
      LexSlashes(s, i + 1, n - 1, token + ['\\'], words);
      assert token + ['\\'] + Repeat('\\', n - 1) == token + Repeat('\\', n);
    }
  }

  lemma {:induction false} LexBetweenQuotes(s: string, i: nat, body: string, state: LexState, token: string,
                                            words: seq<string>)
    requires i < |s| && s[i] == '"' && At(s, i + 1, Escape(body)) && (body == "" || body[|body| - 1] != '\\')
    requires i + 1 + |Escape(body)| < |s| && s[i + 1 + |Escape(body)|] == '"' && state != Quoted
    ensures Lex(s, i, state, token, words) == Lex(s, i + 2 + |Escape(body)|, Word, token + body, words)
  {
    LexEscaped(s, i + 1, body, token, words);
  }

  /** What a quoted token is written around: its text without the trailing backslashes. */
  function Body(t: string): string {
    t[..|t| - TrailingSlashes(t)]
  }

  lemma {:induction false} SlashesBack(t: string)
    ensures Body(t) + Repeat('\\', TrailingSlashes(t)) == t
    ensures Body(t) == "" || Body(t)[|Body(t)| - 1] != '\\'
  {
  }

  /** A quoted text stands at position i of the line, its n trailing backslashes after the quotes, up to `end`. */
  predicate QuotesStand(s: string, i: nat, body: string, n: nat, end: nat) {
    var inside := Escape(body);
    && end == i + 2 + |inside| + n <= |s|
    && s[i] == '"' && At(s, i + 1, inside) && s[i + 1 + |inside|] == '"'
    && At(s, i + 2 + |inside|, Repeat('\\', n))
  }

  lemma {:induction false} QuotedAt(s: string, i: nat, t: string, printed: string)
    requires printed == Print(t, InQuotes) && At(s, i, printed)
    ensures QuotesStand(s, i, Body(t), TrailingSlashes(t), i + |printed|)
  {
    var inside, slashes := Escape(Body(t)), Repeat('\\', TrailingSlashes(t));
    AtSplit(s, i, "\"", inside + ("\"" + slashes));
    AtSplit(s, i + 1, inside, "\"" + slashes);
    AtSplit(s, i + 1 + |inside|, "\"", slashes);
    AtTail(s, i, "\"");
    AtTail(s, i + 1 + |inside|, "\"");
  }

  lemma {:induction false} LexQuotedParts(s: string, i: nat, body: string, n: nat, end: nat, state: LexState, token: string,
                                          words: seq<string>)
    requires QuotesStand(s, i, body, n, end) && (body == "" || body[|body| - 1] != '\\') && state != Quoted
    requires n == 0 || end == |s| || !IsDelimiter(s[end])
    ensures Lex(s, i, state, token, words) == Lex(s, end, Word, token + body + Repeat('\\', n), words)
  {
    LexBetweenQuotes(s, i, body, state, token, words);
    LexSlashes(s, i + 2 + |Escape(body)|, n, token + body, words);
  }

  /** No backslash written after the quotes escapes what stands next. */
  lemma {:induction false} SlashesEnd(s: string, j: nat, t: string)
    requires j <= |s| && MayFollow(s, j, t, InQuotes)
    ensures TrailingSlashes(t) == 0 || j == |s| || !IsDelimiter(s[j])
    ensures Body(t) == "" || Body(t)[|Body(t)| - 1] != '\\'
  {
    SlashesBack(t);
  }

  lemma {:induction false} SlashesBackAfter(token: string, t: string)
    ensures token + Body(t) + Repeat('\\', TrailingSlashes(t)) == token + t
  {
    var body, slashes := Body(t), Repeat('\\', TrailingSlashes(t));
    SlashesBack(t);
    assert token + body + slashes == token + (body + slashes);
  }

  lemma {:induction false} LexQuoted(s: string, i: nat, t: string, state: LexState, token: string, words: seq<string>,
                                     printed: string, read: string)
    requires printed == Print(t, InQuotes) && At(s, i, printed) && read == token + t && state != Quoted
    requires MayFollow(s, i + |printed|, t, InQuotes)
    ensures Lex(s, i, state, token, words) == Lex(s, i + |printed|, Word, read, words)
  {
    QuotedAt(s, i, t, printed);
    SlashesEnd(s, i + |printed|, t);
    SlashesBackAfter(token, t);
    LexQuotedParts(s, i, Body(t), TrailingSlashes(t), i + |printed|, state, token, words);
  }

  /** Bare characters are taken as they are, case and backslashes included. */
  lemma {:induction false} LexBare(s: string, i: nat, t: string, state: LexState, token: string, words: seq<string>)
    requires At(s, i, t) && Suits(t, Bare) && state != Quoted && MayFollow(s, i + |t|, t, Bare)
    ensures Lex(s, i, state, token, words) == Lex(s, i + |t|, Word, token + t, words)
    decreases |t|
  {
    AtTail(s, i, t);
    var rest := t[1..];
    assert token + [t[0]] + rest == token + t;
    if rest == "" {
      assert token + [t[0]] == token + t;
    } else {
      assert forall k :: 0 <= k < |rest| ==> rest[k] == t[k + 1];
      assert s[i + 1 + 0] == rest[0];
      LexBare(s, i + 1, rest, Word, token + [t[0]], words);
    }
  }

  lemma {:induction false} TickRunAt(s: string, i: nat, n: nat)
    requires At(s, i, Repeat('`', n)) && (i + n == |s| || s[i + n] != '`')
    ensures TickRun(s, i) == n
    decreases n
  {
    if n > 0 {
      AtRepeat(s, i, '`', n);
      TickRunAt(s, i + 1, n - 1);
    }
  }

  /** Content that suits a fence is followed by the first run that closes it. */
  lemma {:induction false} FenceClosesAfterContent(s: string, i: nat, t: string, n: nat)
    requires At(s, i, t) && At(s, i + |t|, Repeat('`', n)) && Suits(t, InFence(n))
    requires var j := i + |t| + n; j == |s| || s[j] != '`'
    ensures FenceEnd(s, i, n) == Some(i + |t|)
  {
    var e := i + |t|;
    assert s[i + (|t| - 1)] == t[|t| - 1];
    assert forall k :: e <= k < e + n ==> s[k] == Repeat('`', n)[k - e];
    assert IsRun(s, i, e, n);
    FenceClosesAtFirstRun(s, i, n);
    var k := FenceEnd(s, i, n).value;
    if k < e {
      RunInsideContent(s, i, t, n, k);
    }
  }

  lemma {:induction false} RunInsideContent(s: string, i: nat, t: string, n: nat, k: nat)
    requires At(s, i, t) && t != "" && t[|t| - 1] != '`' && i <= k < i + |t| && IsRun(s, i, k, n)
    ensures IsRun(t, 0, k - i, n)
  {
    var r := k - i;
    assert s[i + (|t| - 1)] == t[|t| - 1];
    assert k + n <= i + |t| - 1;
    forall m | r <= m < r + n ensures t[m] == '`' { assert s[i + m] == t[m]; }
    assert s[i + (r + n)] == t[r + n];
    assert r > 0 ==> s[i + (r - 1)] == t[r - 1];
  }

  lemma {:induction false} FencedAt(s: string, i: nat, t: string, n: nat, printed: string)
    requires Suits(t, InFence(n)) && printed == Print(t, InFence(n)) && At(s, i, printed)
    requires MayFollow(s, i + |printed|, t, InFence(n))
    ensures n > 0 && |printed| == n + |t| + n && s[i] == '`' && TickRun(s, i) == n
    ensures FenceEnd(s, i + n, n) == Some(i + n + |t|) && Content(s, i + n, i + n + |t|) == t
  {
    var ticks := Repeat('`', n);
    AtSplit(s, i, ticks, t + ticks);
    AtSplit(s, i + n, t, ticks);
    assert s[i + n + 0] == t[0] && s[i + 0] == ticks[0];
    TickRunAt(s, i, n);
    FenceClosesAfterContent(s, i + n, t, n);
  }

  lemma {:induction false} LexFenced(s: string, i: nat, t: string, n: nat, state: LexState, token: string, words: seq<string>,
                                     printed: string)
    requires Suits(t, InFence(n)) && printed == Print(t, InFence(n)) && At(s, i, printed) && state != Quoted
    requires MayFollow(s, i + |printed|, t, InFence(n))
    ensures Lex(s, i, state, token, words) == Lex(s, i + |printed|, Word, token + t, words)
  {
    FencedAt(s, i, t, n, printed);
  }

  // ----- a token of several sections

  /** Adjacent sections of whatever styles join into one token. */
  datatype Section = Section(text: string, style: Style)

  function Joined(sections: seq<Section>): string {
    if sections == [] then "" else sections[0].text + Joined(sections[1..])
  }

  function Printed(sections: seq<Section>): string {
    if sections == [] then "" else Print(sections[0].text, sections[0].style) + Printed(sections[1..])
  }

  /** A section after one that ends in a backslash is bare, and two fences are not adjacent. */
  predicate MayAdjoin(a: Section, b: Section) {
    if a.style.InFence? then !b.style.InFence? else a.text != "" && a.text[|a.text| - 1] == '\\' ==> b.style.Bare?
  }

  predicate WellJoined(sections: seq<Section>) {
    && sections != [] && Suits(sections[0].text, sections[0].style)
    && (|sections| > 1 ==> MayAdjoin(sections[0], sections[1]) && WellJoined(sections[1..]))
  }

  /** What a section's print begins with. */
  lemma {:induction false} PrintBegins(t: string, style: Style)
    requires Suits(t, style)
    ensures Print(t, style) != ""
    ensures Print(t, style)[0] == match style case Bare => t[0] case InQuotes => '"' case InFence(_) => '`'
  {
  }

  lemma {:induction false} NextSectionFollows(s: string, j: nat, a: Section, rest: seq<Section>)
    requires WellJoined(rest) && MayAdjoin(a, rest[0]) && At(s, j, Printed(rest))
    ensures MayFollow(s, j, a.text, a.style)
  {
    PrintBegins(rest[0].text, rest[0].style);
    AtTail(s, j, Printed(rest));
  }

  lemma {:induction false} LexSection(s: string, i: nat, a: Section, printed: string, state: LexState, token: string,
                                      words: seq<string>)
    requires Suits(a.text, a.style) && printed == Print(a.text, a.style) && At(s, i, printed) && state != Quoted
    requires MayFollow(s, i + |printed|, a.text, a.style)
    ensures Lex(s, i, state, token, words) == Lex(s, i + |printed|, Word, token + a.text, words)
  {
    match a.style
    case Bare => LexBare(s, i, a.text, state, token, words);
    case InQuotes => LexQuoted(s, i, a.text, state, token, words, printed, token + a.text);
    case InFence(n) => LexFenced(s, i, a.text, n, state, token, words, printed);
  }

  /** Wherever a token is being read or about to start, the scanner reads this text from i to j into it. */
  ghost predicate Takes(s: string, i: nat, j: nat, text: string)
    requires i <= |s| && j <= |s|
  {
    forall state, token, words {:trigger Lex(s, i, state, token, words)} ::
      state != Quoted ==> Lex(s, i, state, token, words) == Lex(s, j, Word, token + text, words)
  }

  lemma {:induction false} TakesInTurn(s: string, i: nat, j: nat, k: nat, a: string, b: string)
    requires i <= |s| && j <= |s| && k <= |s| && Takes(s, i, j, a) && Takes(s, j, k, b)
    ensures Takes(s, i, k, a + b)
  {
    forall state, token, words | state != Quoted
      ensures Lex(s, i, state, token, words) == Lex(s, k, Word, token + (a + b), words)
    {
      assert token + a + b == token + (a + b);
      assert Lex(s, j, Word, token + a, words) == Lex(s, k, Word, token + a + b, words);
    }
  }

  /** A printed section stands at position i, and what follows may follow it. */
  predicate SectionAt(s: string, i: nat, a: Section) {
    var printed := Print(a.text, a.style);
    Suits(a.text, a.style) && At(s, i, printed) && MayFollow(s, i + |printed|, a.text, a.style)
  }

  /** Printed sections stand at position i, and blanks or the end of the line after them. */
  predicate SectionsAt(s: string, i: nat, sections: seq<Section>) {
    && WellJoined(sections) && At(s, i, Printed(sections))
    && var j := i + |Printed(sections)|; j == |s| || IsSeparator(s[j])
  }

  lemma {:induction false} PrintedSplits(s: string, i: nat, sections: seq<Section>, first: string)
    requires sections != [] && At(s, i, Printed(sections)) && first == Print(sections[0].text, sections[0].style)
    ensures At(s, i, first) && At(s, i + |first|, Printed(sections[1..]))
    ensures |Printed(sections)| == |first| + |Printed(sections[1..])|
  {
    AtSplit(s, i, first, Printed(sections[1..]));
  }

  lemma {:induction false} MayBeFollowed(s: string, next: nat, a: Section, others: seq<Section>)
    requires At(s, next, Printed(others))
    requires if others == [] then next == |s| || IsSeparator(s[next]) else MayAdjoin(a, others[0]) && WellJoined(others)
    ensures MayFollow(s, next, a.text, a.style)
  {
    if others != [] {
      NextSectionFollows(s, next, a, others);
    }
  }

  lemma {:induction false} FirstIsJoined(sections: seq<Section>)
    requires WellJoined(sections)
    ensures Suits(sections[0].text, sections[0].style)
    ensures sections[1..] != [] ==> MayAdjoin(sections[0], sections[1..][0]) && WellJoined(sections[1..])
    ensures sections[1..] == [] ==> Printed(sections[1..]) == ""
  {
  }

  lemma {:induction false} StandsAt(s: string, i: nat, a: Section, first: string)
    requires first == Print(a.text, a.style) && Suits(a.text, a.style) && At(s, i, first)
    requires MayFollow(s, i + |first|, a.text, a.style)
    ensures SectionAt(s, i, a)
  {
  }

  lemma {:induction false} FirstSectionAt(s: string, i: nat, sections: seq<Section>, first: string, others: seq<Section>)
    requires SectionsAt(s, i, sections) && first == Print(sections[0].text, sections[0].style) && others == sections[1..]
    ensures SectionAt(s, i, sections[0])
    ensures |Printed(sections)| == |first| + |Printed(others)|
  {
    PrintedSplits(s, i, sections, first);
    FirstIsJoined(sections);
    MayBeFollowed(s, i + |first|, sections[0], others);
    StandsAt(s, i, sections[0], first);
  }

  lemma {:induction false} OtherSectionsAt(s: string, i: nat, sections: seq<Section>, next: nat)
    requires SectionsAt(s, i, sections) && |sections| > 1
    requires next == i + |Print(sections[0].text, sections[0].style)|
    ensures SectionsAt(s, next, sections[1..])
  {
    PrintedSplits(s, i, sections, Print(sections[0].text, sections[0].style));
  }

  /** How far a text reaches on the line. */
  type Reach = (nat, nat, string) -> bool

  ghost predicate Chains(reach: Reach) {
    forall i: nat, j: nat, k: nat, a, b :: reach(i, j, a) && reach(j, k, b) ==> reach(i, k, a + b)
  }

  lemma {:induction false} ReachJoins(i: nat, sections: seq<Section>, reach: Reach, next: nat)
    requires |sections| > 1 && Chains(reach) && next == i + |Print(sections[0].text, sections[0].style)|
    requires reach(i, next, sections[0].text)
    requires reach(next, next + |Printed(sections[1..])|, Joined(sections[1..]))
    ensures reach(i, i + |Printed(sections)|, Joined(sections))
  {
  }

  lemma {:induction false} OneSectionReaches(i: nat, sections: seq<Section>, reach: Reach)
    requires |sections| == 1 && reach(i, i + |Print(sections[0].text, sections[0].style)|, sections[0].text)
    ensures reach(i, i + |Printed(sections)|, Joined(sections))
  {
    assert sections[1..] == [];
    assert Joined(sections) == sections[0].text;
  }

  /** Which sections stand where. */
  type Place = (nat, seq<Section>) -> bool

  /** The first of the sections is reached over, and the others stand after it. */
  ghost predicate StepsFrom(there: Place, reach: Reach, i: nat, sections: seq<Section>) {
    sections != []
    && var next := i + |Print(sections[0].text, sections[0].style)|;
       reach(i, next, sections[0].text) && (|sections| > 1 ==> there(next, sections[1..]))
  }

  /** What reaches over each section reaches over adjacent ones. */
  lemma {:induction false} SectionsReach(there: Place, reach: Reach, i: nat, sections: seq<Section>)
    requires there(i, sections) && Chains(reach)
    requires forall k: nat, rest {:trigger StepsFrom(there, reach, k, rest)} ::
               there(k, rest) ==> StepsFrom(there, reach, k, rest)
    ensures reach(i, i + |Printed(sections)|, Joined(sections))
    decreases |sections|
  {
    assert StepsFrom(there, reach, i, sections);
    if |sections| > 1 {
      var next := i + |Print(sections[0].text, sections[0].style)|;
      SectionsReach(there, reach, next, sections[1..]);
      ReachJoins(i, sections, reach, next);
    } else {
      OneSectionReaches(i, sections, reach);
    }
  }

  lemma {:induction false} SectionTakes(s: string, i: nat, a: Section)
    requires SectionAt(s, i, a)
    ensures Takes(s, i, i + |Print(a.text, a.style)|, a.text)
  {
    var printed := Print(a.text, a.style);
    forall state, token, words | state != Quoted
      ensures Lex(s, i, state, token, words) == Lex(s, i + |printed|, Word, token + a.text, words)
    {
      LexSection(s, i, a, printed, state, token, words);
    }
  }

  ghost function Taking(s: string): Reach {
    (i: nat, j: nat, text: string) => i <= |s| && j <= |s| && Takes(s, i, j, text)
  }

  function Standing(s: string): Place {
    (i: nat, sections: seq<Section>) => SectionsAt(s, i, sections)
  }

  lemma {:induction false} FirstIsTaken(s: string, i: nat, sections: seq<Section>, next: nat)
    requires SectionsAt(s, i, sections) && next == i + |Print(sections[0].text, sections[0].style)|
    ensures Taking(s)(i, next, sections[0].text)
  {
    FirstSectionAt(s, i, sections, Print(sections[0].text, sections[0].style), sections[1..]);
    SectionTakes(s, i, sections[0]);
  }

  lemma {:induction false} OthersStand(s: string, i: nat, sections: seq<Section>, next: nat)
    requires SectionsAt(s, i, sections) && |sections| > 1
    requires next == i + |Print(sections[0].text, sections[0].style)|
    ensures Standing(s)(next, sections[1..])
  {
    OtherSectionsAt(s, i, sections, next);
  }

  lemma {:induction false} StandingSteps(s: string, i: nat, sections: seq<Section>)
    requires SectionsAt(s, i, sections)
    ensures StepsFrom(Standing(s), Taking(s), i, sections)
  {
    var next := i + |Print(sections[0].text, sections[0].style)|;
    FirstIsTaken(s, i, sections, next);
    if |sections| > 1 {
      OthersStand(s, i, sections, next);
    }
  }

  lemma {:induction false} TakingChains(s: string)
    ensures Chains(Taking(s))
  {
    var reach := Taking(s);
    forall i: nat, j: nat, k: nat, a, b | reach(i, j, a) && reach(j, k, b) ensures reach(i, k, a + b) {
      TakesInTurn(s, i, j, k, a, b);
    }
  }

  /** Adjacent sections are read into one token. */
  lemma {:induction false} SectionsTake(s: string, i: nat, sections: seq<Section>, end: nat, token: string)
    requires SectionsAt(s, i, sections) && end == i + |Printed(sections)| && token == Joined(sections)
    ensures Takes(s, i, end, token)
  {
    TakingChains(s);
    forall k: nat, rest | Standing(s)(k, rest) ensures StepsFrom(Standing(s), Taking(s), k, rest) {
      StandingSteps(s, k, rest);
    }
    SectionsReach(Standing(s), Taking(s), i, sections);
  }

  /** One printed token with the blanks after it. */
  datatype Piece = Piece(sections: seq<Section>, gap: string)

  predicate IsBlank(gap: string) {
    forall k :: 0 <= k < |gap| ==> IsSeparator(gap[k])
  }

  /** A piece as it stands on the line: how the token is printed and what it is, and the blanks after it. */
  datatype Laid = Laid(printed: string, token: string, gap: string)

  function Layout(pieces: seq<Piece>): seq<Laid> {
    if pieces == [] then []
    else [Laid(Printed(pieces[0].sections), Joined(pieces[0].sections), pieces[0].gap)] + Layout(pieces[1..])
  }

  function Glue(laid: seq<Laid>): string {
    if laid == [] then "" else laid[0].printed + (laid[0].gap + Glue(laid[1..]))
  }

  function Render(pieces: seq<Piece>): string {
    Glue(Layout(pieces))
  }

  function Tokens(pieces: seq<Piece>): seq<string> {
    seq(|pieces|, k requires 0 <= k < |pieces| => Joined(pieces[k].sections))
  }

  /** A token of one section or more; blanks must part it from a token after it. */
  predicate SpacedPiece(p: Piece, last: bool) {
    WellJoined(p.sections) && IsBlank(p.gap) && (!last ==> p.gap != "")
  }

  predicate WellSpaced(pieces: seq<Piece>) {
    pieces != [] ==> SpacedPiece(pieces[0], |pieces| == 1) && WellSpaced(pieces[1..])
  }

  lemma {:induction false} LexBlanks(s: string, i: nat, gap: string, words: seq<string>)
    requires At(s, i, gap) && IsBlank(gap)
    ensures Lex(s, i, Sep, "", words) == Lex(s, i + |gap|, Sep, "", words)
    decreases |gap|
  {
    if gap != "" {
      AtTail(s, i, gap);
      LexBlanks(s, i + 1, gap[1..], words);
    }
  }

  /** A word and the blanks after it: filed, refused for want of a slot, or left open at the end of the line. */
  lemma {:induction false} LexWordThenGap(s: string, i: nat, gap: string, token: string, words: seq<string>)
    requires At(s, i, gap) && IsBlank(gap) && (gap == "" ==> i == |s|)
    ensures |words| > MAX_ARGS ==> Finish(Lex(s, i, Word, token, words)) == Rejected(words, TooManyArguments)
    ensures |words| <= MAX_ARGS && gap != "" ==>
              Lex(s, i, Word, token, words) == Lex(s, i + |gap|, Sep, "", words + [token])
  {
    if gap != "" {
      AtTail(s, i, gap);
      LexBlanks(s, i + 1, gap[1..], words + [token]);
    }
  }

  /** What a well-spaced line must come back as. */
  function Expected(words: seq<string>): Message {
    if words == [] then Rejected([], EmptyCommand)
    else if |words| <= MAX_ARGS + 1 then Accepted(words)
    else Rejected(words[..MAX_ARGS + 1], TooManyArguments)
  }

  /** Filed, refused for want of a slot, or left open at the end of the line: a token from i to j and the blanks after. */
  ghost predicate Reads(s: string, i: nat, laid: Laid)
    requires i + |laid.printed| + |laid.gap| <= |s|
  {
    forall words :: ReadsAfter(s, i, laid, words)
  }

  predicate ReadsAfter(s: string, i: nat, laid: Laid, words: seq<string>)
    requires i + |laid.printed| + |laid.gap| <= |s|
  {
    var lexed := Lex(s, i, Sep, "", words);
    if |words| > MAX_ARGS then Finish(lexed) == Rejected(words, TooManyArguments)
    else if laid.gap == "" then Finish(lexed) == Accepted(words + [laid.token])
    else lexed == Lex(s, i + |laid.printed| + |laid.gap|, Sep, "", words + [laid.token])
  }

  lemma {:induction false} TakesFirst(s: string, i: nat, j: nat, token: string, words: seq<string>)
    requires i <= |s| && j <= |s| && Takes(s, i, j, token)
    ensures Lex(s, i, Sep, "", words) == Lex(s, j, Word, token, words)
  {
    assert "" + token == token;
  }

  lemma {:induction false} TokenThenGap(s: string, i: nat, laid: Laid, words: seq<string>)
    requires At(s, i, laid.printed) && At(s, i + |laid.printed|, laid.gap) && IsBlank(laid.gap)
    requires laid.gap == "" ==> i + |laid.printed| == |s|
    requires Lex(s, i, Sep, "", words) == Lex(s, i + |laid.printed|, Word, laid.token, words)
    ensures ReadsAfter(s, i, laid, words)
  {
    LexWordThenGap(s, i + |laid.printed|, laid.gap, laid.token, words);
  }

  lemma {:induction false} TokenIsRead(s: string, i: nat, laid: Laid)
    requires At(s, i, laid.printed) && Takes(s, i, i + |laid.printed|, laid.token)
    requires At(s, i + |laid.printed|, laid.gap) && IsBlank(laid.gap)
    requires laid.gap == "" ==> i + |laid.printed| == |s|
    ensures Reads(s, i, laid)
  {
    forall words ensures ReadsAfter(s, i, laid, words) {
      TakesFirst(s, i, i + |laid.printed|, laid.token, words);
      TokenThenGap(s, i, laid, words);
    }
  }

  lemma {:induction false} PieceIsRead(s: string, i: nat, p: Piece, laid: Laid)
    requires laid == Laid(Printed(p.sections), Joined(p.sections), p.gap)
    requires At(s, i, laid.printed) && At(s, i + |laid.printed|, p.gap) && SpacedPiece(p, i + |laid.printed| == |s|)
    ensures Reads(s, i, laid)
  {
    if p.gap != "" { AtTail(s, i + |laid.printed|, p.gap); }
    SectionsTake(s, i, p.sections, i + |laid.printed|, laid.token);
    TokenIsRead(s, i, laid);
  }

  /** The pieces stand one after another from position i to the end given. */
  predicate Stands(s: string, i: nat, laid: seq<Laid>, end: nat)
    decreases |laid|
  {
    if laid == [] then i == end <= |s|
    else
      && At(s, i, laid[0].printed)
      && At(s, i + |laid[0].printed|, laid[0].gap)
      && Stands(s, i + |laid[0].printed| + |laid[0].gap|, laid[1..], end)
  }

  lemma {:induction false} GluedStands(s: string, i: nat, laid: seq<Laid>)
    requires At(s, i, Glue(laid))
    ensures Stands(s, i, laid, i + |Glue(laid)|)
    decreases |laid|
  {
    if laid != [] {
      var printed, gap, rest := laid[0].printed, laid[0].gap, Glue(laid[1..]);
      AtSplit(s, i, printed, gap + rest);
      AtSplit(s, i + |printed|, gap, rest);
      GluedStands(s, i + |printed| + |gap|, laid[1..]);
    }
  }

  lemma {:induction false} ExpectedStep(words: seq<string>, tokens: seq<string>)
    requires tokens != [] && |words| <= MAX_ARGS + 1
    ensures words + tokens == words + [tokens[0]] + tokens[1..]
    ensures |words| > MAX_ARGS ==> Expected(words + tokens) == Rejected(words, TooManyArguments)
    ensures |words| <= MAX_ARGS && |tokens| == 1 ==> Expected(words + tokens) == Accepted(words + [tokens[0]])
  {
    if |words| > MAX_ARGS {
      assert (words + tokens)[..MAX_ARGS + 1] == words;
    }
    if |tokens| == 1 {
      assert words + tokens == words + [tokens[0]];
    }
  }

  /** The pieces are read one after another from position i to the end given. */
  ghost predicate AllRead(s: string, i: nat, laid: seq<Laid>, end: nat)
    decreases |laid|
  {
    if laid == [] then i == end
    else
      var next := i + |laid[0].printed| + |laid[0].gap|;
      next <= |s| && Reads(s, i, laid[0]) && (laid[0].gap == "" ==> |laid| == 1) && AllRead(s, next, laid[1..], end)
  }

  /** Blanks follow the last piece too. */
  predicate Parted(pieces: seq<Piece>) {
    pieces != [] ==> pieces[|pieces| - 1].gap != ""
  }

  lemma {:induction false} PiecesAreRead(s: string, i: nat, pieces: seq<Piece>, laid: seq<Laid>, end: nat)
    requires WellSpaced(pieces) && laid == Layout(pieces) && Stands(s, i, laid, end) && (end == |s| || Parted(pieces))
    ensures AllRead(s, i, laid, end)
    decreases |pieces|
  {
    if pieces != [] {
      var p, next := pieces[0], i + |laid[0].printed| + |laid[0].gap|;
      assert laid[1..] == Layout(pieces[1..]);
      PiecesAreRead(s, next, pieces[1..], laid[1..], end);
      if |pieces| == 1 && p.gap == "" {
        assert next == |s|;
      }
      PieceIsRead(s, i, p, laid[0]);
    }
  }

  function TokensOf(laid: seq<Laid>): seq<string> {
    seq(|laid|, k requires 0 <= k < |laid| => laid[k].token)
  }

  lemma {:induction false} LexLaid(s: string, i: nat, laid: seq<Laid>, words: seq<string>)
    requires i <= |s| && AllRead(s, i, laid, |s|) && |words| <= MAX_ARGS + 1
    ensures Finish(Lex(s, i, Sep, "", words)) == Expected(words + TokensOf(laid))
    decreases |laid|
  {
    if laid == [] {
      assert words + TokensOf(laid) == words;
      assert Lex(s, i, Sep, "", words) == Open(Sep, "", words);
    } else {
      var tokens := TokensOf(laid);
      assert tokens[1..] == TokensOf(laid[1..]);
      ExpectedStep(words, tokens);
      assert ReadsAfter(s, i, laid[0], words);
      if |words| <= MAX_ARGS && laid[0].gap != "" {
        LexLaid(s, i + |laid[0].printed| + |laid[0].gap|, laid[1..], words + [tokens[0]]);
      }
    }
  }

  /** Pieces that all have blanks after them, and slots, are filed. */
  lemma {:induction false} LexFiled(s: string, i: nat, laid: seq<Laid>, words: seq<string>, end: nat)
    requires i <= |s| && end <= |s| && AllRead(s, i, laid, end) && |words| + |laid| <= MAX_ARGS + 1
    requires laid != [] ==> laid[|laid| - 1].gap != ""
    ensures Lex(s, i, Sep, "", words) == Lex(s, end, Sep, "", words + TokensOf(laid))
    decreases |laid|
  {
    if laid == [] {
      assert words + TokensOf(laid) == words;
    } else {
      var tokens := TokensOf(laid);
      assert tokens[1..] == TokensOf(laid[1..]);
      assert words + tokens == words + [tokens[0]] + tokens[1..];
      assert ReadsAfter(s, i, laid[0], words);
      LexFiled(s, i + |laid[0].printed| + |laid[0].gap|, laid[1..], words + [tokens[0]], end);
    }
  }

  lemma {:induction false} LaidTokens(pieces: seq<Piece>)
    ensures TokensOf(Layout(pieces)) == Tokens(pieces)
    decreases |pieces|
  {
    if pieces != [] {
      LaidTokens(pieces[1..]);
      assert Tokens(pieces) == [Joined(pieces[0].sections)] + Tokens(pieces[1..]);
      assert TokensOf(Layout(pieces)) == [Joined(pieces[0].sections)] + TokensOf(Layout(pieces)[1..]);
    }
  }

  lemma {:induction false} LineSplits(s: string, lead: string, middle: string, tail: string)
    requires s == lead + middle + tail
    ensures At(s, 0, lead) && At(s, |lead|, middle) && At(s, |lead| + |middle|, tail)
  {
    assert s == lead + (middle + tail);
    AtSplit(s, 0, lead, middle + tail);
    AtSplit(s, |lead|, middle, tail);
  }

  lemma {:induction false} LineStands(s: string, lead: string, laid: seq<Laid>, tail: string, end: nat)
    requires s == lead + Glue(laid) + tail && end == |lead| + |Glue(laid)|
    ensures At(s, 0, lead) && Stands(s, |lead|, laid, end) && At(s, end, tail) && end + |tail| == |s|
  {
    LineSplits(s, lead, Glue(laid), tail);
    GluedStands(s, |lead|, laid);
  }

  lemma {:induction false} LineIsRead(s: string, lead: string, laid: seq<Laid>)
    requires IsBlank(lead) && At(s, 0, lead) && AllRead(s, |lead|, laid, |s|)
    ensures Finish(Lex(s, 0, Sep, "", [])) == Expected(TokensOf(laid))
  {
    LexBlanks(s, 0, lead, []);
    LexLaid(s, |lead|, laid, []);
    assert [] + TokensOf(laid) == TokensOf(laid);
  }

  lemma {:induction false} LexLine(s: string, lead: string, pieces: seq<Piece>, laid: seq<Laid>)
    requires IsBlank(lead) && WellSpaced(pieces) && laid == Layout(pieces) && s == lead + Glue(laid)
    ensures Finish(Lex(s, 0, Sep, "", [])) == Expected(Tokens(pieces))
  {
    assert s == lead + Glue(laid) + "";
    LineStands(s, lead, laid, "", |s|);
    PiecesAreRead(s, |lead|, pieces, laid, |s|);
    LaidTokens(pieces);
    LineIsRead(s, lead, laid);
  }

  /** Printing any tokens and scanning the line gives the tokens back, or says which limit they break. */
  lemma {:induction false} PrintThenParse(lead: string, pieces: seq<Piece>)
    requires IsBlank(lead) && WellSpaced(pieces) && |lead + Render(pieces)| <= MAX_MESSAGE_LEN
    ensures Parse(lead + Render(pieces)) == Expected(Tokens(pieces))
  {
    LexLine(lead + Render(pieces), lead, pieces, Layout(pieces));
  }

  lemma {:induction false} AcceptedFields(words: seq<string>)
    requires 1 <= |words| <= MAX_ARGS + 1
    ensures var msg := Expected(words);
            && msg.valid && msg.error == Nothing && msg.argc == |words| - 1 && |msg.args| == MAX_ARGS
            && msg.command == Upper(words[0]) && msg.subcommand == Upper(msg.args[0])
            && forall k :: 0 <= k < MAX_ARGS ==> msg.args[k] == if k + 1 < |words| then words[k + 1] else ""
  {
  }

  /** Within the limits every argument, the count and the upper-cased command survive the trip. */
  lemma {:induction false} RoundTrip(lead: string, pieces: seq<Piece>)
    requires IsBlank(lead) && WellSpaced(pieces) && |lead + Render(pieces)| <= MAX_MESSAGE_LEN
    requires 1 <= |pieces| <= MAX_ARGS + 1
    ensures var msg, words := Parse(lead + Render(pieces)), Tokens(pieces);
            && msg.valid && msg.error == Nothing && msg.argc == |pieces| - 1 && |msg.args| == MAX_ARGS
            && msg.command == Upper(words[0]) && msg.subcommand == Upper(msg.args[0])
            && forall k :: 0 <= k < MAX_ARGS ==> msg.args[k] == if k + 1 < |pieces| then words[k + 1] else ""
  {
    PrintThenParse(lead, pieces);
    AcceptedFields(Tokens(pieces));
  }

  // ----- lines that are left open

  lemma {:induction false} LayoutEnds(pieces: seq<Piece>, laid: seq<Laid>)
    requires laid == Layout(pieces)
    ensures |laid| == |pieces| && TokensOf(laid) == Tokens(pieces)
    ensures pieces != [] ==> laid[|laid| - 1].gap == pieces[|pieces| - 1].gap
    decreases |pieces|
  {
    LaidTokens(pieces);
    if pieces != [] {
      LayoutEnds(pieces[1..], laid[1..]);
    }
  }

  lemma {:induction false} LineIsFiled(s: string, lead: string, laid: seq<Laid>, end: nat)
    requires IsBlank(lead) && At(s, 0, lead) && end <= |s| && AllRead(s, |lead|, laid, end)
    requires |laid| <= MAX_ARGS + 1 && (laid != [] ==> laid[|laid| - 1].gap != "")
    ensures Lex(s, 0, Sep, "", []) == Lex(s, end, Sep, "", TokensOf(laid))
  {
    LexBlanks(s, 0, lead, []);
    LexFiled(s, |lead|, laid, [], end);
    assert [] + TokensOf(laid) == TokensOf(laid);
  }

  lemma {:induction false} StandingIsFiled(s: string, lead: string, pieces: seq<Piece>, laid: seq<Laid>, end: nat)
    requires IsBlank(lead) && WellSpaced(pieces) && Parted(pieces) && |pieces| <= MAX_ARGS + 1 && laid == Layout(pieces)
    requires At(s, 0, lead) && Stands(s, |lead|, laid, end) && end <= |s|
    ensures Lex(s, 0, Sep, "", []) == Lex(s, end, Sep, "", TokensOf(laid))
  {
    PiecesAreRead(s, |lead|, pieces, laid, end);
    LayoutEnds(pieces, laid);
    LineIsFiled(s, lead, laid, end);
  }

  /** Whatever comes after parted pieces is scanned with those filed. */
  lemma {:induction false} LexBefore(s: string, lead: string, pieces: seq<Piece>, laid: seq<Laid>, tail: string, end: nat)
    requires IsBlank(lead) && WellSpaced(pieces) && Parted(pieces) && |pieces| <= MAX_ARGS + 1
    requires laid == Layout(pieces) && s == lead + Glue(laid) + tail && end == |lead| + |Glue(laid)|
    ensures At(s, end, tail) && end + |tail| == |s|
    ensures Lex(s, 0, Sep, "", []) == Lex(s, end, Sep, "", Tokens(pieces))
  {
    LineStands(s, lead, laid, tail, end);
    StandingIsFiled(s, lead, pieces, laid, end);
    LaidTokens(pieces);
  }

  /** A quote that is never closed is reported, with the tokens before it filed. */
  lemma {:induction false} OpenQuoteIsReported(lead: string, pieces: seq<Piece>, t: string)
    requires IsBlank(lead) && WellSpaced(pieces) && Parted(pieces) && |pieces| <= MAX_ARGS + 1
    requires |lead + Render(pieces) + ("\"" + Escape(t))| <= MAX_MESSAGE_LEN
    ensures Parse(lead + Render(pieces) + ("\"" + Escape(t))) == Rejected(Tokens(pieces), UnterminatedQuote)
  {
    var s, j := lead + Render(pieces) + ("\"" + Escape(t)), |lead| + |Render(pieces)|;
    LexBefore(s, lead, pieces, Layout(pieces), "\"" + Escape(t), j);
    OpenQuoteLexes(s, j, t, Tokens(pieces));
  }

  lemma {:induction false} OpenQuoteLexes(s: string, j: nat, t: string, words: seq<string>)
    requires At(s, j, "\"" + Escape(t)) && j + 1 + |Escape(t)| == |s|
    ensures Finish(Lex(s, j, Sep, "", words)) == Rejected(words, UnterminatedQuote)
  {
    AtSplit(s, j, "\"", Escape(t));
    AtTail(s, j, "\"");
    LexEscaped(s, j + 1, t, "", words);
  }

  /** A fence of n backticks with no run of exactly n after it is reported likewise. */
  lemma {:induction false} OpenFenceIsReported(lead: string, pieces: seq<Piece>, n: nat, t: string)
    requires IsBlank(lead) && WellSpaced(pieces) && Parted(pieces) && |pieces| <= MAX_ARGS + 1
    requires n > 0 && (t == "" || t[0] != '`') && forall k: nat :: !IsRun(t, 0, k, n)
    requires |lead + Render(pieces) + (Repeat('`', n) + t)| <= MAX_MESSAGE_LEN
    ensures Parse(lead + Render(pieces) + (Repeat('`', n) + t)) == Rejected(Tokens(pieces), UnterminatedFence)
  {
    var s, j := lead + Render(pieces) + (Repeat('`', n) + t), |lead| + |Render(pieces)|;
    LexBefore(s, lead, pieces, Layout(pieces), Repeat('`', n) + t, j);
    AtSplit(s, j, Repeat('`', n), t);
    OpenFenceLexes(s, j, n, t, Tokens(pieces));
  }

  lemma {:induction false} OpenFenceLexes(s: string, j: nat, n: nat, t: string, words: seq<string>)
    requires n > 0 && j + n + |t| == |s| && At(s, j, Repeat('`', n)) && At(s, j + n, t)
    requires (t == "" || t[0] != '`') && forall k: nat :: !IsRun(t, 0, k, n)
    ensures Lex(s, j, Sep, "", words) == Bad(words, UnterminatedFence)
  {
    if t != "" { AtTail(s, j + n, t); }
    AtRepeat(s, j, '`', n);
    TickRunAt(s, j, n);
    FenceClosesAtFirstRun(s, j + n, n);
    if FenceEnd(s, j + n, n).Some? {
      RunInTail(s, j + n, t, n, FenceEnd(s, j + n, n).value);
    }
  }

  lemma {:induction false} RunInTail(s: string, i: nat, t: string, n: nat, k: nat)
    requires At(s, i, t) && i + |t| == |s| && IsRun(s, i, k, n)
    ensures IsRun(t, 0, k - i, n)
  {
    var r := k - i;
    forall m | r <= m < r + n ensures t[m] == '`' { assert s[i + m] == t[m]; }
    if r + n < |t| {
      assert s[i + (r + n)] == t[r + n];
    }
    assert r > 0 ==> s[i + (r - 1)] == t[r - 1];
  }

  const LOWER_LETTERS := "abcdefghijklmnopqrstuvwxyz"
  const UPPER_LETTERS := "ABCDEFGHIJKLMNOPQRSTUVWXYZ"

  /** Upper-casing turns each small letter into the capital at the same place of the alphabet, and nothing else. */
  lemma {:induction false} UpperIs(t: string, k: nat)
    requires k < |t|
    ensures |Upper(t)| == |t|
    ensures forall a: nat :: a < 26 && t[k] == LOWER_LETTERS[a] ==> Upper(t)[k] == UPPER_LETTERS[a]
    ensures t[k] !in LOWER_LETTERS ==> Upper(t)[k] == t[k]
  {
    assert forall a: nat :: a < 26 ==> LOWER_LETTERS[a] as int == 97 + a && UPPER_LETTERS[a] as int == 65 + a;
    if 'a' <= t[k] <= 'z' {
      assert LOWER_LETTERS[t[k] as int - 97] == t[k];
    }
  }
}
