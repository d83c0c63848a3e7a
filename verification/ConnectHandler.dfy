/**
 The handler of one proxy client: a buffered line reader over a chunked byte stream, the
 request decision, and what is sent, opened and relayed (section 9.3.6 of RFC 9110).
 */
module ConnectHandler {
  import opened Wrappers
  import opened Text
  import opened Policy
  import opened Allowlist
  import opened Bytes

  const NEWLINE: Byte := 10

  // ---------- Lines of a byte stream ----------

  /** The length of the first line with its newline; the whole stream when there is none. */
  function LineLength(s: seq<Byte>): (n: nat)
    ensures n <= |s|
    ensures NEWLINE !in s ==> n == |s|
    ensures NEWLINE in s ==> n > 0 && s[n - 1] == NEWLINE && NEWLINE !in s[..n - 1]
  {
    if s == [] then 0
    else if s[0] == NEWLINE then 1
    else
      var n := 1 + LineLength(s[1..]);
      assert s == [s[0]] + s[1..];
      assert NEWLINE in s ==> s[..n - 1] == [s[0]] + s[1..][..n - 2];
      n
  }

  /** A line, and what the reader then holds: fetched bytes and the chunks not yet fetched. */
  datatype Fetched = Fetched(line: seq<Byte>, buffer: seq<Byte>, chunks: seq<seq<Byte>>)

  /** Reading one line: an empty buffer is refilled by one chunk, and the line may span chunks. */
  function FetchLine(buffer: seq<Byte>, chunks: seq<seq<Byte>>): Fetched
    decreases |chunks|, |buffer|
  {
    if buffer == [] then
      if chunks == [] then Fetched([], [], []) else FetchNonEmpty(chunks[0], chunks[1..])
    else FetchNonEmpty(buffer, chunks)
  }

  function FetchNonEmpty(buffer: seq<Byte>, chunks: seq<seq<Byte>>): Fetched
    decreases |chunks|, |buffer| + 1
  {
    var n := LineLength(buffer);
    if NEWLINE in buffer then Fetched(buffer[..n], buffer[n..], chunks)
    else if chunks == [] then Fetched(buffer, [], [])
    else
      var f := FetchNonEmpty(chunks[0], chunks[1..]);
      f.(line := buffer + f.line)
  }

  lemma LineLengthConcat(a: seq<Byte>, b: seq<Byte>)
    ensures LineLength(a + b) == if NEWLINE in a then LineLength(a) else |a| + LineLength(b)
  {
    if a == [] {
      assert a + b == b;
    } else {
      assert (a + b)[1..] == a[1..] + b;
      assert a == [a[0]] + a[1..];
      LineLengthConcat(a[1..], b);
    }
  }

  /** Chunked reading gives the stream's own first line and keeps the rest of the stream. */
  lemma {:induction false} FetchIsFirstLine(buffer: seq<Byte>, chunks: seq<seq<Byte>>)
    ensures var s := buffer + Flatten(chunks);
            var f := FetchNonEmpty(buffer, chunks);
            f.line == s[..LineLength(s)] && f.buffer + Flatten(f.chunks) == s[LineLength(s)..]
    decreases |chunks|
  {
    var s := buffer + Flatten(chunks);
    LineLengthConcat(buffer, Flatten(chunks));
    if NEWLINE in buffer {
      var n := LineLength(buffer);
      assert s[..n] == buffer[..n] && s[n..] == buffer[n..] + Flatten(chunks);
    } else if chunks == [] {
      assert s == buffer;
      assert s[..|s|] == s;
    } else {
      var rest := Flatten(chunks);
      FetchIsFirstLine(chunks[0], chunks[1..]);
      hide LineLength, FetchNonEmpty;
      Slices(buffer, rest, LineLength(rest));
    }
  }

  lemma FetchLineIsFirstLine(buffer: seq<Byte>, chunks: seq<seq<Byte>>)
    ensures var s := buffer + Flatten(chunks);
            var f := FetchLine(buffer, chunks);
            f.line == s[..LineLength(s)] && f.buffer + Flatten(f.chunks) == s[LineLength(s)..]
  {
    if buffer == [] {
      if chunks != [] {
        FetchIsFirstLine(chunks[0], chunks[1..]);
        assert buffer + Flatten(chunks) == chunks[0] + Flatten(chunks[1..]);
      }
    } else {
      FetchIsFirstLine(buffer, chunks);
    }
  }

  // ---------- The buffered reader ----------

  /**
   A reader over a socket that will deliver `chunks` and then end. One chunk is what one read
   of the socket returns, at most the 8 KiB that the reader asks for.
   */
  class BufReader {
    var buffer: seq<Byte>
    var chunks: seq<seq<Byte>>

    constructor (chunks: seq<seq<Byte>>)
      ensures this.buffer == [] && this.chunks == chunks
    {
      this.buffer := [];
      this.chunks := chunks;
    }

    method ReadLine() returns (line: seq<Byte>)
      modifies this
      ensures Fetched(line, buffer, chunks) == FetchLine(old(buffer), old(chunks))
    {
      line := [];
      if buffer == [] {
        if chunks == [] {
          return;
        }
        buffer, chunks := chunks[0], chunks[1..];
      }
      ghost var whole := FetchNonEmpty(buffer, chunks);
      while NEWLINE !in buffer && chunks != []
        invariant whole == var f := FetchNonEmpty(buffer, chunks); f.(line := line + f.line)
        decreases |chunks|
      {
        ghost var f := FetchNonEmpty(chunks[0], chunks[1..]);
        assert line + (buffer + f.line) == line + buffer + f.line;
        line := line + buffer;
        buffer, chunks := chunks[0], chunks[1..];
      }
      var n := LineLength(buffer);
      line, buffer := line + buffer[..n], buffer[n..];
    }
  }

  // ---------- The request head ----------

  /** UTF-8 decoding, the outcome of connecting, and whether the client still takes bytes. */
  datatype World = World(
    utf8: seq<Byte> -> Option<string>,
    connects: string -> bool,
    clientWritable: bool)
  {
    ghost predicate Valid() {
      utf8([]) == Some("")
    }
  }

  predicate Blank(line: string) {
    line == "\r\n" || line == "\n" || line == ""
  }

  function Remaining(buffer: seq<Byte>, chunks: seq<seq<Byte>>): nat {
    |buffer + Flatten(chunks)|
  }

  lemma FetchShrinks(buffer: seq<Byte>, chunks: seq<seq<Byte>>)
    ensures var f := FetchLine(buffer, chunks);
            Remaining(f.buffer, f.chunks) + |f.line| == Remaining(buffer, chunks)
  {
    FetchLineIsFirstLine(buffer, chunks);
  }

  /** Dropping header lines up to a blank one; None when a line is not UTF-8. */
  function DrainHeaders(world: World, buffer: seq<Byte>, chunks: seq<seq<Byte>>): Option<Fetched>
    requires world.Valid()
    decreases Remaining(buffer, chunks)
  {
    var f := FetchLine(buffer, chunks);
    match world.utf8(f.line)
    case None => None
    case Some(text) =>
      FetchShrinks(buffer, chunks);
      if Blank(text) then Some(f) else DrainHeaders(world, f.buffer, f.chunks)
  }

  // ---------- The handler ----------

  datatype Event =
    | Status(code: nat)
    | Connect(key: string)
    | Relayed(key: string, fromClient: seq<Byte>)

  /** The answer to a request line, when the reader still has `chunks` to fetch. */
  function Respond(world: World, allow: set<string>, line: string, chunks: seq<seq<Byte>>): seq<Event> {
    var words := SplitWhitespace(line);
    if |words| < 2 || Lower(words[0]) != "connect" then [Status(405)] else
    var key := TargetKey(words[1]);
    if key !in allow then [Status(403)]
    else if !world.connects(key) then [Connect(key), Status(502)]
    else if !world.clientWritable then [Connect(key), Status(200)]
    else [Connect(key), Status(200), Relayed(key, Flatten(chunks))]
  }

  /** Everything one client connection causes. */
  function Trace(world: World, allow: set<string>, buffer: seq<Byte>, chunks: seq<seq<Byte>>): seq<Event>
    requires world.Valid()
  {
    var first := FetchLine(buffer, chunks);
    match world.utf8(first.line)
    case None => []
    case Some(line) =>
      if line == "" then [] else
      match DrainHeaders(world, first.buffer, first.chunks)
      case None => []
      case Some(head) => Respond(world, allow, line, head.chunks)
  }

  method HandleClient(reader: BufReader, allow: set<string>, world: World) returns (events: seq<Event>)
    requires world.Valid()
    modifies reader
    ensures events == Trace(world, allow, old(reader.buffer), old(reader.chunks))
  {
    hide SplitWhitespace, FetchLine;
    events := [];
    var bytes := reader.ReadLine();
    var requestLine := world.utf8(bytes);
    if requestLine.None? || requestLine.value == "" {
      return;
    }
    ghost var drained := DrainHeaders(world, reader.buffer, reader.chunks);
    var blank := false;
    while !blank
      invariant drained == if blank then Some(Fetched(bytes, reader.buffer, reader.chunks))
                           else DrainHeaders(world, reader.buffer, reader.chunks)
      decreases if blank then 0 else 1, Remaining(reader.buffer, reader.chunks)
    {
      FetchShrinks(reader.buffer, reader.chunks);
      bytes := reader.ReadLine();
      var line := world.utf8(bytes);
      if line.None? {
        return;
      }
      blank := line.value == "\r\n" || line.value == "\n" || line.value == "";
    }
    var words := SplitWhitespace(requestLine.value);
    if |words| < 2 || Lower(words[0]) != "connect" {
      events := events + [Status(405)];
      return;
    }
    var target := Lower(words[1]);
    var key := if ':' in target then target else target + ":443";
    // The reader's buffer is dropped here: only what has not been fetched reaches the relay.
    var unread := reader.chunks;
    if key !in allow {
      events := events + [Status(403)];
      return;
    }
    events := events + [Connect(key)];
    if !world.connects(key) {
      events := events + [Status(502)];
      return;
    }
    events := events + [Status(200)];
    if world.clientWritable {
      events := events + [Relayed(key, Flatten(unread))];
    }
  }

  // ---------- Safety of every trace ----------

  predicate IsStatus(e: Event) {
    e.Status?
  }

  /** At most one status line; upstreams only from the allow set; relaying only right after 200, to that upstream. */
  ghost predicate Safe(events: seq<Event>, allow: set<string>) {
    && (forall i, j :: 0 <= i < |events| && 0 <= j < |events| && IsStatus(events[i]) && IsStatus(events[j]) ==> i == j)
    && (forall i :: 0 <= i < |events| && events[i].Connect? ==> i == 0 && events[i].key in allow)
    && (forall i :: 0 <= i < |events| && events[i].Relayed? ==>
          i == 2 && events[1] == Status(200) && events[0] == Connect(events[i].key))
  }

  lemma TraceIsSafe(world: World, allow: set<string>, buffer: seq<Byte>, chunks: seq<seq<Byte>>)
    requires world.Valid()
    ensures Safe(Trace(world, allow, buffer, chunks), allow)
  {
    hide SplitWhitespace, FetchLine, DrainHeaders, TargetKey;
  }

  /** What a request for a target gets, in order: refused by the list, by the upstream, or opened. */
  function Answer(world: World, key: string, accepted: bool, chunks: seq<seq<Byte>>): seq<Event> {
    if !accepted then [Status(403)]
    else if !world.connects(key) then [Connect(key), Status(502)]
    else [Connect(key), Status(200)] + if world.clientWritable then [Relayed(key, Flatten(chunks))] else []
  }

  /** A request line in any spelling: a method and a target between white space, then anything. */
  lemma RequestDecision(world: World, endpoints: seq<Endpoint>, lead: string, verb: string, gap: string,
                        target: string, rest: string, chunks: seq<seq<Byte>>)
    requires AllWhitespace(lead) && IsWord(verb) && AllWhitespace(gap) && gap != "" && IsWord(target)
    requires rest != "" ==> IsWhitespace(rest[0])
    ensures var line := lead + verb + gap + target + rest;
            Respond(world, ProxyAllow(endpoints), line, chunks) ==
            if Lower(verb) != "connect" then [Status(405)]
            else Answer(world, TargetKey(target), TargetKey(target) in ProxyAllow(endpoints), chunks)
  {
    RequestWords(lead, verb, gap, target, rest);
    hide SplitWhitespace, ProxyAllow, TargetKey, Lower, Flatten;
  }

  lemma RequestWords(lead: string, verb: string, gap: string, target: string, rest: string)
    requires AllWhitespace(lead) && IsWord(verb) && AllWhitespace(gap) && gap != "" && IsWord(target)
    requires rest != "" ==> IsWhitespace(rest[0])
    ensures SplitWhitespace(lead + verb + gap + target + rest) == [verb, target] + SplitWhitespace(rest)
  {
    hide SplitWhitespace, IsWhitespace, IsWord;
    var tail := gap + target + rest;
    RegroupText(lead, verb, gap, target, rest);
    assert tail[0] == gap[0];
    SplitFirstWord(lead, verb, tail);
    SplitFirstWord(gap, target, rest);
    Prepend(verb, target, SplitWhitespace(rest));
  }

  lemma RegroupText(a: string, b: string, c: string, d: string, e: string)
    ensures a + b + c + d + e == a + b + (c + d + e)
  {
  }

  lemma Prepend(a: string, b: string, rest: seq<string>)
    ensures [a] + ([b] + rest) == [a, b] + rest
  {
  }

  /** A line of fewer than two words is refused. */
  lemma ShortRequest(world: World, allow: set<string>, lead: string, word: string, trail: string,
                     chunks: seq<seq<Byte>>)
    requires AllWhitespace(lead) && NoWhitespace(word) && AllWhitespace(trail)
    ensures Respond(world, allow, lead + word + trail, chunks) == [Status(405)]
  {
    if word == "" {
      SplitBlank(lead + word + trail);
    } else {
      SplitFirstWord(lead, word, trail);
      SplitBlank(trail);
    }
    hide SplitWhitespace, TargetKey, Lower;
  }

  // ---------- What the tunnel carries ----------

  /** The bytes after the blank line, on the stream itself, with no chunks. */
  function AfterHeaders(world: World, s: seq<Byte>): Option<seq<Byte>>
    requires world.Valid()
    decreases |s|
  {
    var n := LineLength(s);
    match world.utf8(s[..n])
    case None => None
    case Some(text) =>
      assert s[..0] == [];
      if Blank(text) then Some(s[n..]) else
      AfterHeaders(world, s[n..])
  }

  /** Chunked draining leaves exactly the bytes after the blank line, split in fetched and unfetched. */
  lemma {:induction false} DrainMatchesStream(world: World, buffer: seq<Byte>, chunks: seq<seq<Byte>>)
    requires world.Valid()
    ensures var drained := DrainHeaders(world, buffer, chunks);
            var after := AfterHeaders(world, buffer + Flatten(chunks));
            && (drained.None? <==> after.None?)
            && (drained.Some? ==> drained.value.buffer + Flatten(drained.value.chunks) == after.value)
    decreases Remaining(buffer, chunks)
  {
    var f := FetchLine(buffer, chunks);
    FetchLineIsFirstLine(buffer, chunks);
    hide FetchLine;
    var text := world.utf8(f.line);
    if text.Some? && !Blank(text.value) {
      FetchShrinks(buffer, chunks);
      assert f.line != [];
      DrainMatchesStream(world, f.buffer, f.chunks);
    }
  }

  /** The same events, apart from what is relayed. */
  ghost predicate Alike(a: seq<Event>, b: seq<Event>) {
    |a| == |b| && forall i :: 0 <= i < |a| && !a[i].Relayed? ==> a[i] == b[i]
  }

  lemma RespondAlike(world: World, allow: set<string>, line: string, chunks: seq<seq<Byte>>, others: seq<seq<Byte>>)
    ensures Alike(Respond(world, allow, line, chunks), Respond(world, allow, line, others))
  {
    hide SplitWhitespace, TargetKey, Flatten;
  }

  /** The same client bytes in other chunks cause the same events, up to what is relayed. */
  lemma ChunkingDoesNotDecide(world: World, allow: set<string>, chunks: seq<seq<Byte>>, others: seq<seq<Byte>>)
    requires world.Valid() && Flatten(chunks) == Flatten(others)
    ensures Alike(Trace(world, allow, [], chunks), Trace(world, allow, [], others))
  {
    FetchLineIsFirstLine([], chunks);
    FetchLineIsFirstLine([], others);
    hide FetchLine, Flatten, DrainHeaders, AfterHeaders, Respond, LineLength;
    assert [] + Flatten(chunks) == [] + Flatten(others);
    var f, g := FetchLine([], chunks), FetchLine([], others);
    DrainMatchesStream(world, f.buffer, f.chunks);
    DrainMatchesStream(world, g.buffer, g.chunks);
    var line := world.utf8(f.line);
    var head, other := DrainHeaders(world, f.buffer, f.chunks), DrainHeaders(world, g.buffer, g.chunks);
    if line.Some? && head.Some? {
      RespondAlike(world, allow, line.value, head.value.chunks, other.value.chunks);
    }
  }

  /** What a connection relays, if it relays. */
  function RelayedBytes(events: seq<Event>): Option<seq<Byte>> {
    if |events| == 3 && events[2].Relayed? then Some(events[2].fromClient) else None
  }

  lemma RespondRelays(world: World, allow: set<string>, line: string, chunks: seq<seq<Byte>>)
    ensures var bytes := RelayedBytes(Respond(world, allow, line, chunks));
            bytes.None? || bytes.value == Flatten(chunks)
  {
    hide SplitWhitespace, TargetKey, Flatten;
  }

  /** What is relayed is what the reader had not fetched when the head was read. */
  lemma TraceRelays(world: World, allow: set<string>, chunks: seq<seq<Byte>>)
    requires world.Valid()
    ensures var first := FetchLine([], chunks);
            var head := DrainHeaders(world, first.buffer, first.chunks);
            var bytes := RelayedBytes(Trace(world, allow, [], chunks));
            bytes.Some? ==> head.Some? && bytes.value == Flatten(head.value.chunks)
  {
    hide FetchLine, DrainHeaders, Respond, Flatten;
    var first := FetchLine([], chunks);
    var line := world.utf8(first.line);
    var head := DrainHeaders(world, first.buffer, first.chunks);
    if line.Some? && head.Some? {
      RespondRelays(world, allow, line.value, head.value.chunks);
    }
  }

  /** Some read ends right where the given suffix of the stream begins. */
  ghost predicate BoundaryBefore(chunks: seq<seq<Byte>>, suffix: seq<Byte>) {
    exists k :: 0 <= k <= |chunks| && Flatten(chunks[k..]) == suffix
  }

  /** What has been fetched and not used: an end of the chunk fetched last, less than all of it. */
  ghost predicate Within(chunks: seq<seq<Byte>>, f: Fetched) {
    exists k :: 0 <= k <= |chunks| && f.chunks == chunks[k..] &&
      (f.buffer == [] || (k > 0 && |f.buffer| < |chunks[k - 1]|))
  }

  /** Fetching stays within the chunks: it uses at least one byte of the chunk it fetched last. */
  lemma {:induction false} FetchNonEmptyWithin(chunks: seq<seq<Byte>>, k: nat, buffer: seq<Byte>)
    requires k <= |chunks|
    requires k > 0 && |buffer| <= |chunks[k - 1]|
    ensures Within(chunks, FetchNonEmpty(buffer, chunks[k..]))
    decreases |chunks| - k
  {
    var f := FetchNonEmpty(buffer, chunks[k..]);
    if NEWLINE in buffer {
      assert f.chunks == chunks[k..] && |f.buffer| < |chunks[k - 1]|;
    } else if k == |chunks| {
      assert f.chunks == chunks[k..];
    } else {
      assert chunks[k..][0] == chunks[k] && chunks[k..][1..] == chunks[k + 1..];
      FetchNonEmptyWithin(chunks, k + 1, chunks[k]);
    }
  }

  lemma FetchLineStaysWithin(chunks: seq<seq<Byte>>, g: Fetched)
    requires Within(chunks, g)
    ensures Within(chunks, FetchLine(g.buffer, g.chunks))
  {
    var k :| 0 <= k <= |chunks| && g.chunks == chunks[k..] &&
      (g.buffer == [] || (k > 0 && |g.buffer| < |chunks[k - 1]|));
    if g.buffer != [] {
      FetchNonEmptyWithin(chunks, k, g.buffer);
    } else if g.chunks == [] {
      assert FetchLine(g.buffer, g.chunks).chunks == chunks[k..];
    } else {
      assert chunks[k..][0] == chunks[k] && chunks[k..][1..] == chunks[k + 1..];
      FetchNonEmptyWithin(chunks, k + 1, chunks[k]);
    }
  }

  lemma {:induction false} DrainStaysWithin(world: World, chunks: seq<seq<Byte>>, g: Fetched)
    requires world.Valid() && Within(chunks, g)
    ensures var drained := DrainHeaders(world, g.buffer, g.chunks);
            drained.Some? ==> Within(chunks, drained.value)
    decreases Remaining(g.buffer, g.chunks)
  {
    var f := FetchLine(g.buffer, g.chunks);
    FetchLineStaysWithin(chunks, g);
    FetchShrinks(g.buffer, g.chunks);
    hide FetchLine, Within;
    var text := world.utf8(f.line);
    if text.Some? && !Blank(text.value) {
      assert f.line != [];
      DrainStaysWithin(world, chunks, f);
    }
  }

  /** More chunks hold no fewer bytes. */
  lemma {:induction false} FlattenShrinks(chunks: seq<seq<Byte>>, i: nat, j: nat)
    requires i <= j <= |chunks|
    ensures |Flatten(chunks[j..])| <= |Flatten(chunks[i..])|
    decreases j - i
  {
    if i < j {
      assert chunks[i..][1..] == chunks[i + 1..];
      FlattenShrinks(chunks, i + 1, j);
    }
  }

  /** Nothing is left in the buffer if and only if a read ended at the end of what was used. */
  lemma BufferEmptyAtBoundary(chunks: seq<seq<Byte>>, f: Fetched)
    requires Within(chunks, f)
    ensures f.buffer == [] <==> BoundaryBefore(chunks, f.buffer + Flatten(f.chunks))
  {
    var k :| 0 <= k <= |chunks| && f.chunks == chunks[k..] &&
      (f.buffer == [] || (k > 0 && |f.buffer| < |chunks[k - 1]|));
    var suffix := f.buffer + Flatten(f.chunks);
    if f.buffer == [] {
      assert suffix == Flatten(chunks[k..]);
    } else {
      assert chunks[k - 1..][0] == chunks[k - 1] && chunks[k - 1..][1..] == chunks[k..];
      forall i | 0 <= i <= |chunks|
        ensures Flatten(chunks[i..]) != suffix
      {
        if i >= k {
          FlattenShrinks(chunks, k, i);
        } else {
          FlattenShrinks(chunks, i, k - 1);
        }
      }
    }
  }

  /**
   The tunnel carries all of the client's bytes after the blank line if and only if one of the
   reads ended right behind the blank line. Otherwise what is missing is their beginning, as
   far as it was read together with the head.
   */
  lemma TunnelCarries(world: World, allow: set<string>, chunks: seq<seq<Byte>>)
    requires world.Valid()
    requires RelayedBytes(Trace(world, allow, [], chunks)).Some?
    ensures var stream := Flatten(chunks);
            var after := AfterHeaders(world, stream[LineLength(stream)..]);
            var tunnel := RelayedBytes(Trace(world, allow, [], chunks)).value;
            && after.Some?
            && BoundaryBefore(chunks, tunnel)
            && |tunnel| <= |after.value| && tunnel == after.value[|after.value| - |tunnel|..]
            && (tunnel == after.value <==> BoundaryBefore(chunks, after.value))
  {
    HeadOfStream(world, chunks);
    TraceRelays(world, allow, chunks);
    hide FetchLine, Flatten, DrainHeaders, AfterHeaders, Trace, LineLength, Within, BoundaryBefore;
    var first := FetchLine([], chunks);
    var head := DrainHeaders(world, first.buffer, first.chunks).value;
    BufferEmptyAtBoundary(chunks, head);
    WithinIsSuffix(chunks, head);
    var tunnel := Flatten(head.chunks);
    assert (head.buffer + tunnel)[|head.buffer|..] == tunnel;
    if head.buffer == [] {
      assert head.buffer + tunnel == tunnel;
    }
  }

  /** What the reader holds behind the head is the stream behind the head, in whole chunks but for the buffer. */
  lemma HeadOfStream(world: World, chunks: seq<seq<Byte>>)
    requires world.Valid()
    ensures var stream := Flatten(chunks);
            var after := AfterHeaders(world, stream[LineLength(stream)..]);
            var first := FetchLine([], chunks);
            var head := DrainHeaders(world, first.buffer, first.chunks);
            head.Some? ==>
              && after.Some? && after.value == head.value.buffer + Flatten(head.value.chunks)
              && Within(chunks, head.value)
  {
    assert [] + Flatten(chunks) == Flatten(chunks);
    FetchLineIsFirstLine([], chunks);
    assert Within(chunks, Fetched([], [], chunks)) by {
      assert chunks[0..] == chunks;
    }
    FetchLineStaysWithin(chunks, Fetched([], [], chunks));
    hide FetchLine, Flatten, DrainHeaders, AfterHeaders, LineLength, Within;
    var first := FetchLine([], chunks);
    DrainStaysWithin(world, chunks, first);
    DrainMatchesStream(world, first.buffer, first.chunks);
  }

  lemma WithinIsSuffix(chunks: seq<seq<Byte>>, f: Fetched)
    requires Within(chunks, f)
    ensures BoundaryBefore(chunks, Flatten(f.chunks))
  {
    var k :| 0 <= k <= |chunks| && f.chunks == chunks[k..] &&
      (f.buffer == [] || (k > 0 && |f.buffer| < |chunks[k - 1]|));
  }

  // ---------- A client that does not wait ----------

  /** Nothing is left to fetch once everything has been fetched. */
  lemma {:induction false} DrainFetchesNothing(world: World, buffer: seq<Byte>)
    requires world.Valid()
    ensures var drained := DrainHeaders(world, buffer, []);
            drained.None? || drained.value.chunks == []
    decreases |buffer|
  {
    var f := FetchLine(buffer, []);
    assert f.chunks == [];
    FetchShrinks(buffer, []);
    hide FetchLine;
    var text := world.utf8(f.line);
    if text.Some? && !Blank(text.value) {
      assert f.line != [];
      assert buffer + Flatten([]) == buffer && f.buffer + Flatten([]) == f.buffer;
      DrainFetchesNothing(world, f.buffer);
    }
  }

  /** When everything the client sends is one read, nothing of it is relayed. */
  lemma OneReadRelaysNothing(world: World, allow: set<string>, bytes: seq<Byte>)
    requires world.Valid()
    requires RelayedBytes(Trace(world, allow, [], [bytes])).Some?
    ensures RelayedBytes(Trace(world, allow, [], [bytes])) == Some([])
  {
    TraceRelays(world, allow, [bytes]);
    var first := FetchLine([], [bytes]);
    assert first.chunks == [];
    DrainFetchesNothing(world, first.buffer);
  }

  ghost predicate IsLine(bytes: seq<Byte>) {
    bytes != [] && bytes[|bytes| - 1] == NEWLINE && NEWLINE !in bytes[..|bytes| - 1]
  }

  lemma LineLengthOf(line: seq<Byte>, rest: seq<Byte>)
    requires IsLine(line)
    ensures LineLength(line + rest) == |line|
  {
    LineLengthConcat(line, rest);
    assert NEWLINE in line;
    forall i | 0 <= i < |line| - 1
      ensures line[i] != NEWLINE
    {
      assert line[i] == line[..|line| - 1][i];
    }
  }

  const CRLF: seq<Byte> := [13, 10]

  /** The world decodes the two lines of a request head. */
  ghost predicate Decodes(world: World, line: seq<Byte>, text: string) {
    && world.Valid() && IsLine(line) && text != ""
    && world.utf8(line) == Some(text) && world.utf8(CRLF) == Some("\r\n")
  }

  /** The request line asks for a tunnel to an upstream that is listed and there. */
  predicate Opens(world: World, allow: set<string>, text: string, key: string) {
    var words := SplitWhitespace(text);
    && |words| >= 2 && Lower(words[0]) == "connect" && key == TargetKey(words[1])
    && key in allow && world.connects(key) && world.clientWritable
  }

  lemma FetchFirst(line: seq<Byte>, rest: seq<Byte>, chunks: seq<seq<Byte>>)
    requires IsLine(line)
    ensures FetchNonEmpty(line + rest, chunks) == Fetched(line, rest, chunks)
  {
    LineLengthOf(line, rest);
    var s := line + rest;
    assert s[|line| - 1] == NEWLINE;
    assert s[..|line|] == line && s[|line|..] == rest;
  }

  lemma DrainBlank(world: World, early: seq<Byte>, later: seq<seq<Byte>>)
    requires world.Valid() && world.utf8(CRLF) == Some("\r\n")
    ensures DrainHeaders(world, CRLF + early, later) == Some(Fetched(CRLF, early, later))
  {
    FetchFirst(CRLF, early, later);
  }

  lemma OpensTunnel(world: World, allow: set<string>, text: string, key: string, chunks: seq<seq<Byte>>)
    requires Opens(world, allow, text, key)
    ensures Respond(world, allow, text, chunks) == [Connect(key), Status(200), Relayed(key, Flatten(chunks))]
  {
    hide SplitWhitespace, TargetKey, Lower, Flatten;
  }

  lemma AfterBlank(world: World, line: seq<Byte>, rest: seq<Byte>)
    requires world.Valid() && IsLine(line) && world.utf8(CRLF) == Some("\r\n")
    ensures var stream := line + CRLF + rest;
            AfterHeaders(world, stream[LineLength(stream)..]) == Some(rest)
  {
    var stream := line + CRLF + rest;
    assert stream == line + (CRLF + rest);
    LineLengthOf(line, CRLF + rest);
    assert stream[|line|..] == CRLF + rest;
    LineLengthOf(CRLF, rest);
    assert (CRLF + rest)[..2] == CRLF && (CRLF + rest)[2..] == rest;
  }

  /** With the head in one read, the bytes behind it in that read are not relayed, whatever they are. */
  lemma EarlyBytesAreLost(world: World, allow: set<string>, line: seq<Byte>, text: string, key: string,
                          early: seq<Byte>, later: seq<seq<Byte>>)
    requires Decodes(world, line, text) && Opens(world, allow, text, key)
    ensures var chunks := [line + CRLF + early] + later;
            var stream := Flatten(chunks);
            && Trace(world, allow, [], chunks) == [Connect(key), Status(200), Relayed(key, Flatten(later))]
            && AfterHeaders(world, stream[LineLength(stream)..]) == Some(early + Flatten(later))
  {
    hide Opens, Trace, AfterHeaders, LineLength, Flatten;
    OpenedTrace(world, allow, line, text, key, early, later);
    AfterBlank(world, line, early + Flatten(later));
    FlattenFirst(line + CRLF + early, later);
    Regroup(line, CRLF, early, Flatten(later));
  }

  lemma FlattenFirst(first: seq<Byte>, later: seq<seq<Byte>>)
    ensures Flatten([first] + later) == first + Flatten(later)
  {
    assert ([first] + later)[1..] == later;
  }

  lemma Regroup(a: seq<Byte>, b: seq<Byte>, c: seq<Byte>, d: seq<Byte>)
    ensures a + b + c + d == a + b + (c + d)
  {
  }

  lemma OpenedTrace(world: World, allow: set<string>, line: seq<Byte>, text: string, key: string,
                    early: seq<Byte>, later: seq<seq<Byte>>)
    requires Decodes(world, line, text) && Opens(world, allow, text, key)
    ensures Trace(world, allow, [], [line + CRLF + early] + later) ==
            [Connect(key), Status(200), Relayed(key, Flatten(later))]
  {
    var chunks := [line + CRLF + early] + later;
    assert chunks[0] == line + (CRLF + early) && chunks[1..] == later;
    FetchFirst(line, CRLF + early, later);
    DrainBlank(world, early, later);
    OpensTunnel(world, allow, text, key, later);
    hide Opens, Respond, DrainHeaders, LineLength, FetchNonEmpty, Flatten, IsLine;
    assert FetchLine([], chunks) == Fetched(line, CRLF + early, later);
  }

  // A request that is accepted, sent with one byte of tunnel data behind it.

  function Ascii(bytes: seq<Byte>): Option<string> {
    if forall i :: 0 <= i < |bytes| ==> bytes[i] < 128 then
      Some(seq(|bytes|, i requires 0 <= i < |bytes| => bytes[i] as char))
    else None
  }

  const WILLING := World(Ascii, _ => true, true)

  const REQUEST := "CONNECT h:1\r\n"
  const REQUEST_BYTES: seq<Byte> := [67, 79, 78, 78, 69, 67, 84, 32, 104, 58, 49, 13, 10]

  lemma RequestDecodes()
    ensures Decodes(WILLING, REQUEST_BYTES, REQUEST)
  {
    assert Ascii(REQUEST_BYTES).value == REQUEST;
    assert Ascii(CRLF).value == "\r\n";
    assert Ascii([]).value == "";
  }

  lemma RequestIsWords()
    ensures SplitWhitespace(REQUEST) == ["CONNECT", "h:1"]
  {
    hide SplitWhitespace;
    assert REQUEST == "" + "CONNECT" + " " + "h:1" + "\r\n";
    RequestWords("", "CONNECT", " ", "h:1", "\r\n");
    SplitBlank("\r\n");
    assert ["CONNECT", "h:1"] + [] == ["CONNECT", "h:1"];
  }

  lemma ConnectIsLower()
    ensures Lower("CONNECT") == "connect"
  {
    assert LowerChar('C') == 'c' && LowerChar('O') == 'o' && LowerChar('N') == 'n';
    assert LowerChar('E') == 'e' && LowerChar('T') == 't';
  }

  lemma TargetIsListed()
    ensures TargetKey("h:1") == "h:1" && "h:1" in ProxyAllow([Endpoint("h", 1)])
  {
    assert Lower("h:1") == "h:1" && "h:1"[1] == ':';
    assert ShowNat(1) == "1";
    assert "h" + ":" + "1" == "h:1";
    TargetWithPort([Endpoint("h", 1)], "h", 1);
    hide TargetKey, ProxyAllow, ShowNat;
    assert Listed([Endpoint("h", 1)], "h", 1) by {
      assert TrimStart([Endpoint("h", 1)][0].host) == "h";
    }
  }

  /** In one read with its request, the first byte of a tunnel is lost. */
  lemma OneReadLosesByte()
    ensures var allow := ProxyAllow([Endpoint("h", 1)]);
            var chunks := [REQUEST_BYTES + CRLF + [88]];
            var stream := Flatten(chunks);
            && WILLING.Valid()
            && RelayedBytes(Trace(WILLING, allow, [], chunks)) == Some([])
            && AfterHeaders(WILLING, stream[LineLength(stream)..]) == Some([88])
  {
    RequestDecodes();
    RequestIsWords();
    ConnectIsLower();
    TargetIsListed();
    hide SplitWhitespace, Lower, TargetKey, ProxyAllow, Trace, AfterHeaders, LineLength, IsLine, Ascii;
    var allow := ProxyAllow([Endpoint("h", 1)]);
    EarlyBytesAreLost(WILLING, allow, REQUEST_BYTES, REQUEST, "h:1", [88], []);
    assert [REQUEST_BYTES + CRLF + [88]] + [] == [REQUEST_BYTES + CRLF + [88]];
    assert [88] + Flatten([]) == [88];
  }

  // ---------- A client that waits ----------

  /** The chunks hold complete lines, the last of them the blank one, and nothing after it. */
  ghost predicate EndsWithBlank(world: World, s: seq<Byte>)
    requires world.Valid()
    decreases |s|
  {
    var n := LineLength(s);
    assert s[..0] == [];
    NEWLINE in s &&
    match world.utf8(s[..n])
    case None => false
    case Some(text) => if Blank(text) then n == |s| else EndsWithBlank(world, s[n..])
  }

  lemma {:induction false} FetchWithin(buffer: seq<Byte>, chunks: seq<seq<Byte>>, later: seq<seq<Byte>>)
    requires NEWLINE in buffer + Flatten(chunks)
    ensures FetchNonEmpty(buffer, chunks + later) ==
            var f := FetchNonEmpty(buffer, chunks); f.(chunks := f.chunks + later)
    decreases |chunks|
  {
    if NEWLINE !in buffer {
      assert NEWLINE in Flatten(chunks);
      assert (chunks + later)[0] == chunks[0] && (chunks + later)[1..] == chunks[1..] + later;
      FetchWithin(chunks[0], chunks[1..], later);
    }
  }

  lemma FetchLineWithin(buffer: seq<Byte>, chunks: seq<seq<Byte>>, later: seq<seq<Byte>>)
    requires NEWLINE in buffer + Flatten(chunks)
    ensures FetchLine(buffer, chunks + later) ==
            var f := FetchLine(buffer, chunks); f.(chunks := f.chunks + later)
  {
    if buffer == [] {
      assert chunks != [];
      assert (chunks + later)[0] == chunks[0] && (chunks + later)[1..] == chunks[1..] + later;
      assert buffer + Flatten(chunks) == chunks[0] + Flatten(chunks[1..]);
      FetchWithin(chunks[0], chunks[1..], later);
    } else {
      FetchWithin(buffer, chunks, later);
    }
  }

  /** Draining such chunks leaves an empty buffer and all later chunks unfetched. */
  lemma {:induction false} DrainStopsAtBlank(world: World, buffer: seq<Byte>, chunks: seq<seq<Byte>>,
                                             later: seq<seq<Byte>>)
    requires world.Valid() && EndsWithBlank(world, buffer + Flatten(chunks))
    ensures var drained := DrainHeaders(world, buffer, chunks + later);
            drained.Some? && drained.value.buffer == [] && Flatten(drained.value.chunks) == Flatten(later)
    decreases Remaining(buffer, chunks)
  {
    var f := FetchLine(buffer, chunks);
    FetchLineIsFirstLine(buffer, chunks);
    FetchLineWithin(buffer, chunks, later);
    FetchShrinks(buffer, chunks);
    hide FetchLine, LineLength;
    var text := world.utf8(f.line).value;
    if Blank(text) {
      assert f.buffer + Flatten(f.chunks) == [];
      FlattenEmpty(f.chunks, later);
    } else {
      DrainStopsAtBlank(world, f.buffer, f.chunks, later);
    }
  }

  lemma {:induction false} FlattenEmpty(a: seq<seq<Byte>>, b: seq<seq<Byte>>)
    requires Flatten(a) == []
    ensures Flatten(a + b) == Flatten(b)
  {
    if a == [] {
      assert a + b == b;
    } else {
      assert a[0] == [] && Flatten(a[1..]) == [];
      assert (a + b)[1..] == a[1..] + b;
      FlattenEmpty(a[1..], b);
    }
  }

  /** A client that sends nothing with its head has everything it sends later relayed. */
  lemma WaitingClientLosesNothing(world: World, allow: set<string>, head: seq<seq<Byte>>, later: seq<seq<Byte>>)
    requires world.Valid()
    requires var s := Flatten(head); NEWLINE in s && EndsWithBlank(world, s[LineLength(s)..])
    ensures var tunnel := RelayedBytes(Trace(world, allow, [], head + later));
            tunnel.None? || tunnel.value == Flatten(later)
  {
    assert [] + Flatten(head) == Flatten(head);
    FetchLineIsFirstLine([], head);
    FetchLineWithin([], head, later);
    var first := FetchLine([], head);
    TraceRelays(world, allow, head + later);
    hide FetchLine, LineLength, EndsWithBlank, Trace, DrainHeaders;
    DrainStopsAtBlank(world, first.buffer, first.chunks, later);
  }
}
