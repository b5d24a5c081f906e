/** A whole event stream (`sseSubscribe` in src/streams.ts): chunks go through the parser, and its frames through the
    hand-off, to a consumer that asks for them whenever it likes. */
module StreamPump {
  import opened Results
  import HandOff
  import SseParser

  type Frame<J> = SseParser.Frame<J>

  /** What can happen to a stream. One chunk's frames are handed over without the consumer coming in between. */
  datatype Event<E> = Chunk(text: string) | Next | Finish(error: Option<E>)

  datatype State<J, E> = State(parser: SseParser.State, channel: HandOff.State<Frame<J>, E>)

  function Produces<J, E>(frames: seq<Frame<J>>): (events: seq<HandOff.Event<Frame<J>, E>>)
    ensures |events| == |frames|
  {
    seq(|frames|, i requires 0 <= i < |frames| => HandOff.Produce(frames[i]))
  }

  function Step<J, E>(s: State<J, E>, e: Event<E>, parse: string -> Option<J>): State<J, E> {
    match e
    case Chunk(text) =>
      State(SseParser.PushState(s.parser, text),
            HandOff.Run(s.channel, Produces(SseParser.PushFrames(s.parser, text, parse))))
    case Next => s.(channel := HandOff.Step(s.channel, HandOff.Next))
    case Finish(error) => s.(channel := HandOff.Step(s.channel, HandOff.Finish(error)))
  }

  function Run<J, E>(events: seq<Event<E>>, parse: string -> Option<J>): State<J, E> {
    if events == [] then State(SseParser.START, HandOff.Start())
    else Step(Run(events[..|events| - 1], parse), events[|events| - 1], parse)
  }

  /** The text received so far. */
  function Text<E>(events: seq<Event<E>>): string {
    if events == [] then ""
    else
      var last := events[|events| - 1];
      Text(events[..|events| - 1]) + (if last.Chunk? then last.text else "")
  }

  // ---- Handing over one chunk's frames ----

  lemma {:induction false} ProducesAll<J, E>(s: HandOff.State<Frame<J>, E>, frames: seq<Frame<J>>)
    requires HandOff.Sound(s)
    ensures var t := HandOff.Run(s, Produces<J, E>(frames));
            && HandOff.Sound(t) && t.produced == s.produced + frames && |s.log| <= |t.log|
            && forall i | |s.log| <= i < |t.log| :: t.log[i].1.Item?
  {
    if frames == [] {
      assert s.produced + frames == s.produced;
    } else {
      var n := |frames| - 1;
      var u := HandOff.Run(s, Produces<J, E>(frames[..n]));
      ProducesAll<J, E>(s, frames[..n]);
      assert Produces<J, E>(frames) == Produces<J, E>(frames[..n]) + [HandOff.Produce(frames[n])];
      HandOff.RunSnoc(s, Produces<J, E>(frames[..n]), HandOff.Produce(frames[n]));
      HandOff.StepKeepsSound(u, HandOff.Produce(frames[n]));
      assert s.produced + frames[..n] + [frames[n]] == s.produced + frames;
    }
  }

  /** Parses a chunk and hands its frames over one by one. */
  method Receive<J, E>(parser: SseParser.Parser<J>, channel: HandOff.Channel<Frame<J>, E>, chunk: string)
    requires parser.Valid()
    modifies parser, channel
    ensures parser.Valid()
    ensures State(SseParser.State(parser.buf, parser.cur), channel.Now())
            == Step(old(State(SseParser.State(parser.buf, parser.cur), channel.Now())), Chunk(chunk), parser.parse)
  {
    var frames := parser.Push(chunk);
    for i := 0 to |frames|
      invariant channel.Now() == HandOff.Run(old(channel.Now()), Produces(frames[..i]))
      invariant parser.Valid()
      invariant SseParser.State(parser.buf, parser.cur)
                == SseParser.PushState(old(SseParser.State(parser.buf, parser.cur)), chunk)
    {
      channel.Deliver(frames[i]);
      assert Produces<J, E>(frames[..i + 1]) == Produces<J, E>(frames[..i]) + [HandOff.Produce(frames[i])];
      HandOff.RunSnoc(old(channel.Now()), Produces(frames[..i]), HandOff.Produce(frames[i]));
    }
    assert frames[..|frames|] == frames;
  }

  // ---- Any run ----

  ghost predicate Pumped<J, E>(s: State<J, E>, text: string, parse: string -> Option<J>) {
    && s.parser == SseParser.PushState(SseParser.START, text)
    && s.channel.produced == SseParser.PushFrames(SseParser.START, text, parse)
    && HandOff.Sound(s.channel)
  }

  lemma StepKeepsPumped<J, E>(s: State<J, E>, text: string, e: Event<E>, parse: string -> Option<J>)
    requires Pumped(s, text, parse)
    ensures Pumped(Step(s, e, parse), text + (if e.Chunk? then e.text else ""), parse)
  {
    match e
    case Chunk(chunk) =>
      ProducesAll<J, E>(s.channel, SseParser.PushFrames(s.parser, chunk, parse));
      SseParser.PushAppend(SseParser.START, text, chunk, parse);
    case Next =>
      HandOff.StepKeepsSound(s.channel, HandOff.Next);
      assert text + "" == text;
    case Finish(error) =>
      HandOff.StepKeepsSound(s.channel, HandOff.Finish(error));
      assert text + "" == text;
  }

  lemma {:induction false} RunIsPumped<J, E>(events: seq<Event<E>>, parse: string -> Option<J>)
    ensures Pumped(Run<J, E>(events, parse), Text(events), parse)
  {
    if events == [] {
      assert "" + "" == "";
    } else {
      RunIsPumped<J, E>(events[..|events| - 1], parse);
      var init, last := events[..|events| - 1], events[|events| - 1];
      StepKeepsPumped(Run<J, E>(init, parse), Text(init), last, parse);
    }
  }

  /** The frames of a text, read block by block. */
  function FramesOf<J>(text: string, parse: string -> Option<J>): seq<Frame<J>> {
    SseParser.BlockFrames(SseParser.ClosedBlocks(SseParser.ParseAll(SseParser.Lines(text))), parse)
  }

  lemma PushIsFramesOf<J>(text: string, parse: string -> Option<J>)
    ensures SseParser.PushFrames(SseParser.START, text, parse) == FramesOf(text, parse)
  {
    assert "" + text == text;
    SseParser.FoldIsBlockwise(SseParser.LinesOf(text), parse);
  }

  /** However the text is cut and however the consumer's calls fall between the chunks, the frames delivered, followed
      by those queued, are the frames of the text received so far: none lost, none repeated, none out of order. */
  lemma StreamDelivers<J, E>(events: seq<Event<E>>, parse: string -> Option<J>)
    ensures var s := Run<J, E>(events, parse);
            HandOff.Delivered(s.channel.log) + s.channel.queue == FramesOf(Text(events), parse)
  {
    RunIsPumped<J, E>(events, parse);
    PushIsFramesOf(Text(events), parse);
  }

  /** A step that answers a call with the end or with an error. */
  ghost predicate TellsEnd<J, E>(s: State<J, E>, t: State<J, E>) {
    |t.channel.log| > |s.channel.log| && !t.channel.log[|t.channel.log| - 1].1.Item?
  }

  lemma EndIsDrained<J, E>(s: State<J, E>, text: string, e: Event<E>, parse: string -> Option<J>)
    requires Pumped(s, text, parse) && TellsEnd(s, Step(s, e, parse))
    ensures !e.Chunk? && HandOff.Delivered(Step(s, e, parse).channel.log) == s.channel.produced
  {
    match e
    case Chunk(chunk) => ProducesAll<J, E>(s.channel, SseParser.PushFrames(s.parser, chunk, parse));
    case Next =>
      HandOff.EndNeedsDrained(s.channel, HandOff.Next);
    case Finish(error) =>
      HandOff.EndNeedsDrained(s.channel, HandOff.Finish(error));
  }

  /** And when the consumer is told of the end or of an error, it has been given every frame of that text. */
  lemma EndAfterEveryFrame<J, E>(events: seq<Event<E>>, e: Event<E>, parse: string -> Option<J>)
    requires TellsEnd(Run<J, E>(events, parse), Step(Run<J, E>(events, parse), e, parse))
    ensures !e.Chunk?
    ensures HandOff.Delivered(Step(Run<J, E>(events, parse), e, parse).channel.log) == FramesOf(Text(events), parse)
  {
    RunIsPumped<J, E>(events, parse);
    EndIsDrained(Run<J, E>(events, parse), Text(events), e, parse);
    PushIsFramesOf(Text(events), parse);
  }
}
