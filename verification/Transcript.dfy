/** The native transcript parser and its bounded tail form. */
module Transcript {
  import opened Outcomes
  import opened Utf8

  const CONTEXT_LIMIT: nat := 64 * 1024

  datatype Speaker = User | Assistant

  datatype Message = Message(speaker: Speaker, text: Text)

  /** What one line without its line ending says; any function of the text may decide it. */
  datatype Line = Blank | Malformed | Other | Says(message: Message)

  type Reader = Text -> Line

  datatype Feedback = Feedback(operatorText: Text, priorAssistant: Option<Text>)

  // ---------- lines ----------

  /** The line boundaries of the library's `splitlines`. */
  predicate Breaks(c: CodePoint) { 10 <= c <= 13 || 0x1C <= c <= 0x1E || c == 0x85 || c == 0x2028 || c == 0x2029 }

  /** The length of the first line with its ending; a return and a newline are one ending. */
  function LineEnd(t: Text): (n: nat)
    requires t != []
    ensures 1 <= n <= |t|
  {
    if t[0] == 13 && |t| > 1 && t[1] == 10 then 2
    else if Breaks(t[0]) || |t| == 1 then 1
    else 1 + LineEnd(t[1..])
  }

  function Lines(t: Text): seq<Text> {
    if t == [] then [] else [t[..LineEnd(t)]] + Lines(t[LineEnd(t)..])
  }

  predicate Complete(line: Text) { line != [] && line[|line| - 1] in {10, 13} }

  function Stripped(line: Text): Text {
    if Complete(line) then Stripped(line[..|line| - 1]) else line
  }

  lemma {:induction false} LineEndIgnoresRest(a: Text, b: Text)
    requires a != [] && a[|a| - 1] == NEWLINE
    ensures LineEnd(a + b) == LineEnd(a)
  {
    if |a| > 1 && !Breaks(a[0]) {
      assert (a + b)[1..] == a[1..] + b;
      LineEndIgnoresRest(a[1..], b);
    }
  }

  lemma LinesUnfold(t: Text)
    ensures Lines([]) == []
    ensures t != [] ==> Lines(t) == [t[..LineEnd(t)]] + Lines(t[LineEnd(t)..])
  {
  }

  /** Text splits into lines independently before and after a newline. */
  lemma {:induction false} LinesSplit(a: Text, b: Text)
    requires a != [] ==> a[|a| - 1] == NEWLINE
    ensures Lines(a + b) == Lines(a) + Lines(b)
    decreases |a|
  {
    hide LineEnd, Lines;
    LinesUnfold(a);
    LinesUnfold(a + b);
    if a == [] {
      assert a + b == b;
    } else {
      LineEndIgnoresRest(a, b);
      var n := LineEnd(a);
      assert (a + b)[..n] == a[..n] && (a + b)[n..] == a[n..] + b;
      LinesSplit(a[n..], b);
      assert [a[..n]] + (Lines(a[n..]) + Lines(b)) == [a[..n]] + Lines(a[n..]) + Lines(b);
    }
  }

  // ---------- messages ----------

  /** The messages of the lines, passing over those that are malformed. */
  function Skim(read: Reader, lines: seq<Text>): seq<Message> {
    if lines == [] then [] else Said(read, lines[0]) + Skim(read, lines[1..])
  }

  /** The messages of one line. */
  function Said(read: Reader, line: Text): seq<Message> {
    var said := read(Stripped(line));
    if said.Says? then [said.message] else []
  }

  lemma {:induction false} SkimSplits(read: Reader, a: seq<Text>, b: seq<Text>)
    ensures Skim(read, a + b) == Skim(read, a) + Skim(read, b)
  {
    hide Said;
    if a == [] {
      assert a + b == b;
    } else {
      assert (a + b)[1..] == a[1..] + b;
      SkimSplits(read, a[1..], b);
      assert Said(read, a[0]) + (Skim(read, a[1..]) + Skim(read, b)) == Said(read, a[0]) + Skim(read, a[1..]) + Skim(read, b);
    }
  }

  /** A malformed last line without an ending is still being written. */
  predicate Unfinished(read: Reader, lines: seq<Text>) {
    lines != [] && var last := lines[|lines| - 1]; !Complete(last) && read(Stripped(last)).Malformed?
  }

  function Messages(read: Reader, lines: seq<Text>): Result<seq<Message>> {
    if Unfinished(read, lines) then Rejected else Ok(Skim(read, lines))
  }

  function LastUser(messages: seq<Message>): Option<nat> {
    if messages == [] then None
    else if messages[|messages| - 1].speaker == User then Some(|messages| - 1)
    else LastUser(messages[..|messages| - 1])
  }

  /** The latest assistant text before position n. */
  function PriorAssistant(messages: seq<Message>, n: nat): Option<Text>
    requires n <= |messages|
  {
    if n == 0 then None
    else if messages[n - 1].speaker == Assistant then Some(messages[n - 1].text)
    else PriorAssistant(messages, n - 1)
  }

  lemma {:induction false} LastUserIsLast(messages: seq<Message>)
    ensures LastUser(messages).Some? <==> exists i :: 0 <= i < |messages| && messages[i].speaker == User
    ensures LastUser(messages).Some? ==>
      var u := LastUser(messages).value;
      u < |messages| && messages[u].speaker == User && forall i | u < i < |messages| :: messages[i].speaker != User
  {
    if messages != [] {
      LastUserIsLast(messages[..|messages| - 1]);
    }
  }

  function FeedbackOf(messages: seq<Message>): Result<Feedback> {
    var last := LastUser(messages);
    if last.None? then Rejected
    else
      LastUserIsLast(messages);
      Ok(Feedback(messages[last.value].text, PriorAssistant(messages, last.value)))
  }

  // ---------- the full parser ----------

  function FullParse(read: Reader, data: seq<Byte>): Result<Feedback> {
    var text :- Decode(data);
    var messages :- Messages(read, Lines(text));
    FeedbackOf(messages)
  }

  /** The numbers of the malformed ones among the first k lines. */
  ghost predicate Numbers(skipped: seq<nat>, read: Reader, lines: seq<Text>, k: nat)
    requires k <= |lines|
  {
    forall n: nat :: n in skipped <==> 1 <= n <= k && read(Stripped(lines[n - 1])).Malformed?
  }

  lemma NumbersStart(read: Reader, lines: seq<Text>)
    ensures Numbers([], read, lines, 0)
  {
  }

  lemma NumbersStep(skipped: seq<nat>, read: Reader, lines: seq<Text>, k: nat)
    requires k < |lines| && Numbers(skipped, read, lines, k)
    ensures Numbers(if read(Stripped(lines[k])).Malformed? then skipped + [k + 1] else skipped, read, lines, k + 1)
  {
    hide Stripped;
    assert forall n: nat :: n in skipped + [k + 1] <==> n in skipped || n == k + 1;
  }

  /** The messages, and the numbers of the malformed lines passed over. */
  method ReadMessages(read: Reader, lines: seq<Text>) returns (r: Result<seq<Message>>, skipped: seq<nat>)
    ensures r == Messages(read, lines)
    ensures r.Ok? ==> Numbers(skipped, read, lines, |lines|)
  {
    hide Stripped, Numbers, Skim, Unfinished;
    var messages: seq<Message> := [];
    skipped := [];
    NumbersStart(read, lines);
    LineStep(read, lines, |lines|);
    for k := 0 to |lines|
      invariant messages + Skim(read, lines[k..]) == Skim(read, lines)
      invariant k == |lines| ==> !Unfinished(read, lines)
      invariant Numbers(skipped, read, lines, k)
    {
      LineStep(read, lines, k);
      NumbersStep(skipped, read, lines, k);
      var line := read(Stripped(lines[k]));
      if line.Malformed? {
        if !Complete(lines[k]) && k + 1 == |lines| {
          return Rejected, skipped;
        }
        skipped := skipped + [k + 1];
      } else if line.Says? {
        messages := messages + [line.message];
      }
    }
    assert messages + [] == messages;
    r := Ok(messages);
  }

  lemma LineStep(read: Reader, lines: seq<Text>, k: nat)
    requires k <= |lines|
    ensures k < |lines| ==> Skim(read, lines[k..]) == Said(read, lines[k]) + Skim(read, lines[k + 1..])
    ensures k == |lines| ==> Skim(read, lines[k..]) == []
    ensures k + 1 == |lines| ==> (Unfinished(read, lines) <==> !Complete(lines[k]) && read(Stripped(lines[k])).Malformed?)
    ensures lines == [] ==> !Unfinished(read, lines)
    ensures lines[0..] == lines
  {
    hide Stripped;
    if k < |lines| {
      assert lines[k..][1..] == lines[k + 1..];
    }
  }

  method FindFeedback(messages: seq<Message>) returns (r: Result<Feedback>)
    ensures r == FeedbackOf(messages)
  {
    var u: nat := |messages|;
    assert messages[..u] == messages;
    while u > 0 && messages[u - 1].speaker != User
      invariant u <= |messages| && LastUser(messages[..u]) == LastUser(messages)
    {
      assert messages[..u][..u - 1] == messages[..u - 1];
      u := u - 1;
    }
    if u == 0 {
      return Rejected;
    }
    var p: nat := u - 1;
    while p > 0 && messages[p - 1].speaker != Assistant
      invariant p < u && PriorAssistant(messages, p) == PriorAssistant(messages, u - 1)
    {
      p := p - 1;
    }
    r := Ok(Feedback(messages[u - 1].text, if p == 0 then None else Some(messages[p - 1].text)));
  }

  method ParseFull(read: Reader, data: seq<Byte>) returns (r: Result<Feedback>)
    ensures r == FullParse(read, data)
  {
    var text := Decode(data);
    if text.Rejected? {
      return Rejected;
    }
    var messages, skipped := ReadMessages(read, Lines(text.value));
    if messages.Rejected? {
      return Rejected;
    }
    r := FindFeedback(messages.value);
  }

  // ---------- the tail parser ----------

  /** What is kept of a tail read from inside the file: everything after its first newline. */
  function AfterNewline(tail: seq<Byte>): seq<Byte> {
    if tail == [] then [] else if tail[0] == NEWLINE then tail[1..] else AfterNewline(tail[1..])
  }

  function Kept(data: seq<Byte>, offset: nat): seq<Byte>
    requires offset <= |data|
  {
    if offset == 0 then data else AfterNewline(data[offset..])
  }

  /** The prior text is cut to whole code points; one that cannot be encoded is an error. */
  function Bounded(f: Feedback): Result<Feedback> {
    if f.priorAssistant.None? then Ok(f)
    else
      var cut :- Truncate(f.priorAssistant.value, CONTEXT_LIMIT);
      Ok(Feedback(f.operatorText, Some(cut)))
  }

  function TailParse(read: Reader, data: seq<Byte>, offset: nat): Result<Feedback>
    requires offset <= |data|
  {
    var found :- FullParse(read, Kept(data, offset));
    Bounded(found)
  }

  method ParseTail(read: Reader, data: seq<Byte>, offset: nat) returns (r: Result<Feedback>)
    requires offset <= |data|
    ensures r == TailParse(read, data, offset)
  {
    var tail := data[offset..];
    if offset > 0 {
      var k := 0;
      while k < |tail| && tail[k] != NEWLINE
        invariant k <= |tail| && AfterNewline(tail[k..]) == AfterNewline(tail)
      {
        assert tail[k..][1..] == tail[k + 1..];
        k := k + 1;
      }
      assert k < |tail| ==> tail[k..][1..] == tail[k + 1..];
      tail := if k < |tail| then tail[k + 1..] else [];
    }
    var text := Decode(tail);
    if text.Rejected? {
      return Rejected;
    }
    var messages, skipped := ReadMessages(read, Lines(text.value));
    if messages.Rejected? {
      return Rejected;
    }
    var found := FindFeedback(messages.value);
    r := if found.Rejected? then Rejected else Bounded(found.value);
  }

  // ---------- the tail agrees with the whole ----------

  lemma {:induction false} KeptFollowsNewline(tail: seq<Byte>) returns (a: seq<Byte>)
    ensures AfterNewline(tail) != [] ==> tail == a + [NEWLINE] + AfterNewline(tail)
  {
    if tail == [] {
      a := [];
    } else if tail[0] == NEWLINE {
      a := [];
      assert tail == [] + [NEWLINE] + tail[1..];
    } else {
      var rest := KeptFollowsNewline(tail[1..]);
      a := [tail[0]] + rest;
      assert tail == [tail[0]] + tail[1..];
    }
  }

  lemma SomethingToRead(b: seq<Byte>)
    requires b != [] && Decode(b).Ok?
    ensures Lines(Decode(b).value) != []
  {
  }

  /** The messages of the kept tail are the last messages of the whole transcript. */
  lemma KeptMessagesAreLast(read: Reader, data: seq<Byte>, offset: nat) returns (earlier: seq<Message>, kept: seq<Message>)
    requires offset <= |data| && Kept(data, offset) != []
    requires Decode(data).Ok? && Messages(read, Lines(Decode(data).value)).Ok?
    ensures Decode(Kept(data, offset)).Ok? && Messages(read, Lines(Decode(Kept(data, offset)).value)) == Ok(kept)
    ensures Messages(read, Lines(Decode(data).value)) == Ok(earlier + kept)
  {
    hide Decode, Lines, Stripped, Skim;
    var b := Kept(data, offset);
    if offset == 0 {
      earlier, kept := [], Skim(read, Lines(Decode(data).value));
      assert earlier + kept == kept;
    } else {
      var a := KeptFollowsNewline(data[offset..]);
      assert data == (data[..offset] + a) + [NEWLINE] + b by { assert data == data[..offset] + data[offset..]; }
      DecodeSplitsAtNewline(data[..offset] + a, b);
      var head, tail := Decode((data[..offset] + a) + [NEWLINE]).value, Decode(b).value;
      LinesSplit(head, tail);
      SkimSplits(read, Lines(head), Lines(tail));
      earlier, kept := Skim(read, Lines(head)), Skim(read, Lines(tail));
      SomethingToRead(b);
      assert Lines(head + tail)[|Lines(head + tail)| - 1] == Lines(tail)[|Lines(tail)| - 1];
    }
  }

  lemma {:induction false} PriorOfSuffix(a: seq<Message>, b: seq<Message>, n: nat)
    requires n <= |b|
    ensures PriorAssistant(b, n).Some? ==> PriorAssistant(a + b, |a| + n) == PriorAssistant(b, n)
  {
    if n > 0 && b[n - 1].speaker != Assistant {
      PriorOfSuffix(a, b, n - 1);
    }
  }

  lemma {:induction false} LastUserOfSuffix(a: seq<Message>, b: seq<Message>)
    requires LastUser(b).Some?
    ensures LastUser(a + b) == Some(|a| + LastUser(b).value)
  {
    var n := |b| - 1;
    if b[n].speaker != User {
      assert (a + b)[..|a + b| - 1] == a + b[..n];
      LastUserOfSuffix(a, b[..n]);
    }
  }

  predicate UserSpeaks(messages: seq<Message>) { exists i :: 0 <= i < |messages| && messages[i].speaker == User }

  /** Some message of the kept tail is the user's. */
  predicate TailHasUser(read: Reader, data: seq<Byte>, offset: nat)
    requires offset <= |data|
  {
    Decode(Kept(data, offset)).Ok? && UserSpeaks(Skim(read, Lines(Decode(Kept(data, offset)).value)))
  }

  /** For every transcript the full parser accepts and every offset: the kept tail alone
      has feedback exactly when it has a user message, with the same operator text and
      the same prior assistant text if one precedes it in the tail. */
  lemma KeptAgrees(read: Reader, data: seq<Byte>, offset: nat)
    requires offset <= |data| && FullParse(read, data).Ok?
    ensures FullParse(read, Kept(data, offset)).Ok? <==> TailHasUser(read, data, offset)
    ensures TailHasUser(read, data, offset) ==>
      var whole, kept := FullParse(read, data).value, FullParse(read, Kept(data, offset)).value;
      && kept.operatorText == whole.operatorText
      && (kept.priorAssistant.Some? ==> kept.priorAssistant == whole.priorAssistant)
  {
    if Kept(data, offset) == [] {
      EmptyHasNoUser(read);
    } else {
      hide Decode, Lines, Kept, Skim, FeedbackOf, UserSpeaks;
      var a, b := KeptMessagesAreLast(read, data, offset);
      FeedbackOfSuffix(a, b);
    }
  }

  lemma FeedbackOfSuffix(a: seq<Message>, b: seq<Message>)
    ensures FeedbackOf(b).Ok? <==> UserSpeaks(b)
    ensures UserSpeaks(b) ==> FeedbackOf(a + b).Ok?
    ensures UserSpeaks(b) ==> FeedbackOf(b).value.operatorText == FeedbackOf(a + b).value.operatorText
    ensures UserSpeaks(b) && FeedbackOf(b).value.priorAssistant.Some? ==>
      FeedbackOf(b).value.priorAssistant == FeedbackOf(a + b).value.priorAssistant
  {
    LastUserIsLast(b);
    if UserSpeaks(b) {
      LastUserOfSuffix(a, b);
      PriorOfSuffix(a, b, LastUser(b).value);
    }
  }

  lemma EmptyHasNoUser(read: Reader)
    ensures FullParse(read, []).Rejected? && Decode([]) == Ok([]) && Skim(read, Lines([])) == []
  {
  }

  /** With one reading of lines, on every accepted transcript the tail parser succeeds
      exactly when the kept tail has a user message and the prior assistant text in
      the tail, if any, has no lone surrogate; it then returns the same operator text
      and the longest whole-code-point prefix of at most 64 KiB of the same prior text. */
  lemma TailRefinesSame(read: Reader, data: seq<Byte>, offset: nat)
    requires offset <= |data| && FullParse(read, data).Ok?
    ensures TailParse(read, data, offset).Ok? ==> TailHasUser(read, data, offset)
    ensures TailHasUser(read, data, offset) ==> FullParse(read, Kept(data, offset)).Ok?
    ensures TailHasUser(read, data, offset) ==>
      var whole, kept := FullParse(read, data).value, FullParse(read, Kept(data, offset)).value; var r := TailParse(read, data, offset);
      && (kept.priorAssistant.Some? ==> kept.priorAssistant == whole.priorAssistant)
      && (r.Ok? <==> (kept.priorAssistant.Some? ==> Encodable(whole.priorAssistant.value)))
      && (r.Ok? ==> r.value.operatorText == whole.operatorText && r.value.priorAssistant.Some? == kept.priorAssistant.Some?)
      && (r.Ok? && kept.priorAssistant.Some? ==> LongestFitting(r.value.priorAssistant.value, whole.priorAssistant.value, CONTEXT_LIMIT))
  {
    KeptAgrees(read, data, offset);
    hide FullParse, Kept, Truncate, LongestFitting, Encodable, TailHasUser;
    var found := FullParse(read, Kept(data, offset));
    if found.Ok? && found.value.priorAssistant.Some? {
      TruncateIsLongest(found.value.priorAssistant.value, CONTEXT_LIMIT);
    }
  }

  // ---------- the two readings of a line ----------

  /** What a parsed line is before either parser looks at its message. */
  datatype Parsed = BlankLine | NotJson | NotTurn | Turn(speaker: Speaker, field: MessageField)

  /** The `message` member: absent, not an object, or an object whose text content is given. */
  datatype MessageField = Absent | NotObject | Content(text: Text)

  function Spoken(speaker: Speaker, text: Text): Line {
    if forall c | c in text :: Whitespace(c) then Other else Says(Message(speaker, text))
  }

  /** The full parser takes an absent message for an empty object. */
  function FullReader(parse: Text -> Parsed): Reader {
    (t: Text) =>
      match parse(t)
      case BlankLine => Blank
      case NotJson => Malformed
      case NotTurn => Other
      case Turn(speaker, field) =>
        match field
        case Absent => Spoken(speaker, [])
        case NotObject => Other
        case Content(text) => Spoken(speaker, text)
  }

  /** The tail parser passes over an absent message. */
  function TailReader(parse: Text -> Parsed): Reader {
    (t: Text) =>
      match parse(t)
      case BlankLine => Blank
      case NotJson => Malformed
      case NotTurn => Other
      case Turn(speaker, field) =>
        match field
        case Absent => Other
        case NotObject => Other
        case Content(text) => Spoken(speaker, text)
  }

  lemma ReadersAgree(parse: Text -> Parsed, t: Text)
    ensures FullReader(parse)(t) == TailReader(parse)(t)
  {
    match parse(t)
    case Turn(speaker, Absent) => assert Spoken(speaker, []) == Other;
    case _ =>
  }

  lemma {:induction false} SkimsAgree(parse: Text -> Parsed, lines: seq<Text>)
    ensures Skim(FullReader(parse), lines) == Skim(TailReader(parse), lines)
    ensures Unfinished(FullReader(parse), lines) == Unfinished(TailReader(parse), lines)
  {
    hide Stripped;
    if lines != [] {
      ReadersAgree(parse, Stripped(lines[0]));
      ReadersAgree(parse, Stripped(lines[|lines| - 1]));
      SkimsAgree(parse, lines[1..]);
    }
  }

  lemma ParsersAgree(parse: Text -> Parsed, data: seq<Byte>)
    ensures FullParse(FullReader(parse), data) == FullParse(TailReader(parse), data)
  {
    if Decode(data).Ok? {
      SkimsAgree(parse, Lines(Decode(data).value));
    }
  }

  /** The tail parser, with its own reading of lines, refines the full one: on every
      transcript the full parser accepts it succeeds exactly when the kept tail has a
      user message and the prior assistant text in the tail, if any, has no lone
      surrogate; it then returns the same operator text and the longest whole-code-point
      prefix of at most 64 KiB of the same prior text. */
  lemma TailRefinesFull(parse: Text -> Parsed, data: seq<Byte>, offset: nat)
    requires offset <= |data| && FullParse(FullReader(parse), data).Ok?
    ensures TailParse(TailReader(parse), data, offset).Ok? ==> TailHasUser(TailReader(parse), data, offset)
    ensures TailHasUser(TailReader(parse), data, offset) ==> FullParse(TailReader(parse), Kept(data, offset)).Ok?
    ensures TailHasUser(TailReader(parse), data, offset) ==>
      var whole, kept := FullParse(FullReader(parse), data).value, FullParse(TailReader(parse), Kept(data, offset)).value;
      var r := TailParse(TailReader(parse), data, offset);
      && (kept.priorAssistant.Some? ==> kept.priorAssistant == whole.priorAssistant)
      && (r.Ok? <==> (kept.priorAssistant.Some? ==> Encodable(whole.priorAssistant.value)))
      && (r.Ok? ==> r.value.operatorText == whole.operatorText && r.value.priorAssistant.Some? == kept.priorAssistant.Some?)
      && (r.Ok? && kept.priorAssistant.Some? ==> LongestFitting(r.value.priorAssistant.value, whole.priorAssistant.value, 65536))
  {
    hide FullParse, TailHasUser, Kept, TailParse, LongestFitting;
    ParsersAgree(parse, data);
    TailRefinesSame(TailReader(parse), data, offset);
  }

  /** Parses three one-letter lines; the one before the user's carries a lone surrogate. */
  function ExampleParse(surrogate: CodePoint): Text -> Parsed {
    (t: Text) =>
      if t == [97] then Turn(Assistant, Content([surrogate])) else if t == [117] then Turn(User, Content(t)) else NotTurn
  }

  function ExampleReader(surrogate: CodePoint): Reader { TailReader(ExampleParse(surrogate)) }

  lemma SpokenLetter(speaker: Speaker, c: CodePoint)
    requires !Whitespace(c)
    ensures Spoken(speaker, [c]) == Says(Message(speaker, [c]))
  {
    assert [c][0] == c;
  }

  lemma ExampleReads(surrogate: CodePoint)
    requires Surrogate(surrogate)
    ensures ExampleReader(surrogate)([97]) == Says(Message(Assistant, [surrogate]))
    ensures ExampleReader(surrogate)([117]) == Says(Message(User, [117]))
    ensures ExampleReader(surrogate)([98]) == Other
  {
    SpokenLetter(Assistant, surrogate);
    SpokenLetter(User, 117);
    hide Spoken;
  }

  const ExampleData: seq<Byte> := [98, NEWLINE, 97, NEWLINE, 117, NEWLINE]
  const ExampleKept: seq<Byte> := [97, NEWLINE, 117, NEWLINE]
  const AllLines: seq<Text> := [[98, 10], [97, 10], [117, 10]]
  const KeptLines: seq<Text> := [[97, 10], [117, 10]]

  function ExampleMessages(surrogate: CodePoint): seq<Message> { [Message(Assistant, [surrogate]), Message(User, [117])] }

  /** A transcript the full parser accepts and the tail parser, reading from inside
      it, does not: its prior assistant text holds a lone surrogate, as an escaped
      JSON string can. */
  lemma SurrogateBreaksTail(surrogate: CodePoint)
    requires Surrogate(surrogate)
    ensures FullParse(FullReader(ExampleParse(surrogate)), ExampleData) == Ok(Feedback([117], Some([surrogate])))
    ensures TailHasUser(TailReader(ExampleParse(surrogate)), ExampleData, 1)
    ensures TailParse(TailReader(ExampleParse(surrogate)), ExampleData, 1).Rejected?
  {
    ParsersAgree(ExampleParse(surrogate), ExampleData);
    ExampleBreaksTail(surrogate);
    hide FullParse, TailParse, TailHasUser;
  }

  lemma ExampleBreaksTail(surrogate: CodePoint)
    requires Surrogate(surrogate)
    ensures FullParse(ExampleReader(surrogate), ExampleData) == Ok(Feedback([117], Some([surrogate])))
    ensures TailHasUser(ExampleReader(surrogate), ExampleData, 1) && TailParse(ExampleReader(surrogate), ExampleData, 1).Rejected?
  {
    hide ExampleReader, ExampleData, ExampleKept, AllLines, KeptLines, ExampleMessages;
    hide Decode, Lines, Kept, Messages, Skim, FeedbackOf, UserSpeaks, Truncate, Encodable;
    ExampleBytes();
    ExampleLines();
    ExampleSkims(surrogate);
    ExampleFeedback(surrogate);
    assert Truncate([surrogate], CONTEXT_LIMIT).Rejected? by { SurrogateIsNotTruncated(surrogate); }
  }

  lemma SurrogateIsNotTruncated(surrogate: CodePoint)
    requires Surrogate(surrogate)
    ensures Truncate([surrogate], CONTEXT_LIMIT).Rejected?
  {
    TruncateIsLongest([surrogate], CONTEXT_LIMIT);
    assert [surrogate][0] == surrogate;
  }

  lemma ExampleBytes()
    ensures |ExampleData| == 6 && Kept(ExampleData, 1) == ExampleKept
    ensures Decode(ExampleData) == Ok(ExampleData) && Decode(ExampleKept) == Ok(ExampleKept)
  {
    assert ExampleData[1..][1..] == ExampleKept;
    DecodesAscii(ExampleData);
    DecodesAscii(ExampleKept);
    hide Decode;
  }

  lemma ExampleLines()
    ensures Lines(ExampleKept) == KeptLines && Lines(ExampleData) == AllLines
  {
    hide Lines, LineEnd;
    TwoLines(97, 117);
    OneLine(98);
    LinesSplit([98, 10], [97, 10, 117, 10]);
    assert [98, 10] + [97, 10, 117, 10] == ExampleData;
  }

  lemma ExampleFeedback(surrogate: CodePoint)
    ensures FeedbackOf(ExampleMessages(surrogate)) == Ok(Feedback([117], Some([surrogate]))) && UserSpeaks(ExampleMessages(surrogate))
  {
    var messages := ExampleMessages(surrogate);
    assert LastUser(messages) == Some(1);
    assert PriorAssistant(messages, 1) == Some([surrogate]);
    assert messages[1].speaker == User;
  }

  lemma ExampleSkims(surrogate: CodePoint)
    requires Surrogate(surrogate)
    ensures Messages(ExampleReader(surrogate), KeptLines) == Ok(ExampleMessages(surrogate))
    ensures Messages(ExampleReader(surrogate), AllLines) == Ok(ExampleMessages(surrogate))
    ensures Skim(ExampleReader(surrogate), KeptLines) == ExampleMessages(surrogate)
  {
    var read := ExampleReader(surrogate);
    ExampleReads(surrogate);
    hide ExampleReader;
    StripsNewline(97);
    StripsNewline(98);
    StripsNewline(117);
    assert KeptLines[1..] == [[117, 10]] && AllLines[1..] == KeptLines;
    SkimOne(read, [117, 10]);
    hide Stripped;
    assert Said(read, [98, 10]) == [] && Said(read, [97, 10]) == [Message(Assistant, [surrogate])];
    assert Skim(read, KeptLines) == [Message(Assistant, [surrogate])] + [Message(User, [117])];
    assert [Message(Assistant, [surrogate])] + [Message(User, [117])] == ExampleMessages(surrogate);
    assert Skim(read, AllLines) == [] + Skim(read, KeptLines) == Skim(read, KeptLines);
    assert Complete(KeptLines[1]) && Complete(AllLines[2]);
  }

  lemma SkimOne(read: Reader, line: Text)
    ensures Skim(read, [line]) == if read(Stripped(line)).Says? then [read(Stripped(line)).message] else []
  {
    assert [line][1..] == [];
  }

  lemma StripsNewline(c: CodePoint)
    requires c !in {10, 13}
    ensures Stripped([c, 10]) == [c]
  {
    assert [c, 10][..1] == [c];
  }

  lemma TwoLines(a: CodePoint, b: CodePoint)
    requires !Breaks(a) && !Breaks(b)
    ensures Lines([a, 10, b, 10]) == [[a, 10], [b, 10]]
  {
    LinesSplit([a, 10], [b, 10]);
    OneLine(a);
    OneLine(b);
    assert [a, 10] + [b, 10] == [a, 10, b, 10];
  }

  lemma OneLine(a: CodePoint)
    requires !Breaks(a)
    ensures Lines([a, 10]) == [[a, 10]]
  {
    assert [a, 10][1..] == [10];
    assert [a, 10][..2] == [a, 10] && [a, 10][2..] == [];
  }

  lemma {:induction false} DecodesAscii(b: seq<Byte>)
    requires forall i | 0 <= i < |b| :: b[i] < 0x80
    ensures Decode(b) == Ok(b)
  {
    if b != [] {
      DecodesAscii(b[1..]);
      assert b == [b[0]] + b[1..];
    }
  }

  // ---------- what lines and feedback are ----------

  /** The characters that end a line. */
  predicate EndsLine(c: CodePoint) { c in {0x0A, 0x0B, 0x0C, 0x0D, 0x1C, 0x1D, 0x1E, 0x85, 0x2028, 0x2029} }

  /** A line without a break before its end, where a return and a newline count as one. */
  predicate Unbroken(line: Text) {
    && line != []
    && forall i | 0 <= i < |line| - 1 :: !EndsLine(line[i]) || (i == |line| - 2 && line[i] == 13 && line[i + 1] == 10)
  }

  /** One line ends before the next: in a break, but not within a return and a newline. */
  predicate CutBetween(a: Text, b: Text) { a != [] && b != [] && EndsLine(a[|a| - 1]) && !(a[|a| - 1] == 13 && b[0] == 10) }

  function Joined(lines: seq<Text>): Text { if lines == [] then [] else lines[0] + Joined(lines[1..]) }

  lemma {:induction false} FirstLine(t: Text)
    requires t != []
    ensures var n := LineEnd(t); Unbroken(t[..n]) && (n < |t| ==> EndsLine(t[n - 1]) && !(t[n - 1] == 13 && t[n] == 10))
  {
    if !(t[0] == 13 && |t| > 1 && t[1] == 10) && !Breaks(t[0]) && |t| > 1 {
      FirstLine(t[1..]);
      var n := LineEnd(t[1..]);
      assert t[..n + 1] == [t[0]] + t[1..][..n];
    }
  }

  /** The lines are the text, cut after every break and nowhere else. */
  lemma {:induction false} LinesExactly(t: Text)
    ensures Joined(Lines(t)) == t
    ensures forall k | 0 <= k < |Lines(t)| :: Unbroken(Lines(t)[k])
    ensures forall k | 0 <= k < |Lines(t)| - 1 :: CutBetween(Lines(t)[k], Lines(t)[k + 1])
    decreases |t|
  {
    if t != [] {
      FirstLine(t);
      var n := LineEnd(t);
      LinesUnfold(t);
      LinesExactly(t[n..]);
      assert t == t[..n] + t[n..];
      if n < |t| {
        FirstLineFollows(t, n);
      }
      hide LineEnd, Lines, Unbroken, CutBetween;
      var lines, rest := Lines(t), Lines(t[n..]);
      assert lines == [t[..n]] + rest && lines[1..] == rest;
      forall k | 0 <= k < |lines|
        ensures Unbroken(lines[k])
        ensures k < |lines| - 1 ==> CutBetween(lines[k], lines[k + 1])
      {
        if k > 0 {
          assert lines[k] == rest[k - 1];
        } else if |lines| > 1 {
          assert lines[1] == rest[0];
        }
      }
    } else {
      LinesUnfold(t);
    }
  }

  lemma FirstLineFollows(t: Text, n: nat)
    requires 0 < n < |t| && EndsLine(t[n - 1]) && !(t[n - 1] == 13 && t[n] == 10)
    ensures Lines(t[n..]) != [] && CutBetween(t[..n], Lines(t[n..])[0])
  {
    LinesUnfold(t[n..]);
  }

  /** Stripping takes every return and newline off the end, and nothing else. */
  lemma {:induction false} StripsExactly(line: Text)
    ensures var s := Stripped(line);
      && |s| <= |line| && line[..|s|] == s && (forall i | |s| <= i < |line| :: line[i] == 10 || line[i] == 13)
      && (s != [] ==> s[|s| - 1] != 10 && s[|s| - 1] != 13)
  {
    if Complete(line) {
      StripsExactly(line[..|line| - 1]);
    }
  }

  lemma {:induction false} PriorIsLatest(messages: seq<Message>, n: nat)
    requires n <= |messages|
    ensures var p := PriorAssistant(messages, n);
      if p.None? then forall i | 0 <= i < n :: messages[i].speaker == User
      else exists i :: 0 <= i < n && messages[i] == Message(Assistant, p.value) && forall j | i < j < n :: messages[j].speaker == User
  {
    if n > 0 && messages[n - 1].speaker == User {
      PriorIsLatest(messages, n - 1);
    } else if n > 0 {
      assert messages[n - 1] == Message(Assistant, messages[n - 1].text);
    }
  }

  /** Where the last user message is at u: the feedback is its text and that of the
      latest assistant message before it, if there is one. */
  ghost predicate FeedbackAt(messages: seq<Message>, f: Feedback, u: int) {
    && 0 <= u < |messages| && messages[u] == Message(User, f.operatorText) && (forall i | u < i < |messages| :: messages[i].speaker == Assistant)
    && if f.priorAssistant.None? then forall i | 0 <= i < u :: messages[i].speaker == User
       else exists i :: 0 <= i < u && messages[i] == Message(Assistant, f.priorAssistant.value) && forall j | i < j < u :: messages[j].speaker == User
  }

  /** There is feedback exactly when the user has spoken, and it is that. */
  lemma FeedbackExactly(messages: seq<Message>)
    ensures FeedbackOf(messages).Ok? <==> exists i :: 0 <= i < |messages| && messages[i].speaker == User
    ensures FeedbackOf(messages).Ok? ==> exists u :: FeedbackAt(messages, FeedbackOf(messages).value, u)
  {
    LastUserIsLast(messages);
    if FeedbackOf(messages).Ok? {
      var u := LastUser(messages).value;
      PriorIsLatest(messages, u);
      assert FeedbackAt(messages, FeedbackOf(messages).value, u);
    }
  }

  /** The lines are refused exactly when the last one is malformed and does not end in a return or a newline. */
  lemma MessagesExactly(read: Reader, lines: seq<Text>)
    ensures Messages(read, lines).Ok? <==>
      !(|lines| > 0 && read(Stripped(lines[|lines| - 1])) == Malformed && !EndsPlainly(lines[|lines| - 1]))
  {
    hide Stripped;
  }

  predicate EndsPlainly(line: Text) { |line| > 0 && (line[|line| - 1] == 10 || line[|line| - 1] == 13) }

  /** Otherwise each line in turn adds the message it says, if it says one. */
  lemma EachLineSpeaks(read: Reader, before: seq<Text>, line: Text, after: seq<Text>)
    ensures Skim(read, before + [line] + after) ==
      Skim(read, before) + (if read(Stripped(line)).Says? then [read(Stripped(line)).message] else []) + Skim(read, after)
    ensures Skim(read, []) == []
  {
    SkimSplits(read, before + [line], after);
    SkimSplits(read, before, [line]);
    SkimOne(read, line);
  }
}
