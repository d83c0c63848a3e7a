/**
 The handler on whole request heads: a request line, any header lines, a blank line, and what
 follows them (section 9.3.6 of RFC 9110).
 */
module Headers {
  import opened Wrappers
  import opened Text
  import opened Policy
  import opened Allowlist
  import opened Bytes
  import opened ConnectHandler

  /** A line that decodes to a text which is no blank line. */
  ghost predicate IsHeader(world: World, line: seq<Byte>) {
    && IsLine(line) && world.utf8(line).Some?
    && world.utf8(line).value != "\r\n" && world.utf8(line).value != "\n" && world.utf8(line).value != ""
  }

  ghost predicate AreHeaders(world: World, headers: seq<seq<Byte>>) {
    forall i :: 0 <= i < |headers| ==> IsHeader(world, headers[i])
  }

  /** The line that ends a head, in either spelling. */
  ghost predicate EndsHead(world: World, line: seq<Byte>) {
    IsLine(line) && (world.utf8(line) == Some("\r\n") || world.utf8(line) == Some("\n"))
  }

  lemma FirstOf(line: seq<Byte>, rest: seq<Byte>)
    requires IsLine(line)
    ensures LineLength(line + rest) == |line|
    ensures (line + rest)[..|line|] == line && (line + rest)[|line|..] == rest
    ensures NEWLINE in line + rest
  {
    LineLengthOf(line, rest);
    assert (line + rest)[|line| - 1] == NEWLINE;
  }

  // ---------- On the stream ----------

  lemma AfterLine(world: World, line: seq<Byte>, rest: seq<Byte>)
    requires world.Valid() && IsHeader(world, line)
    ensures AfterHeaders(world, line + rest) == AfterHeaders(world, rest)
    ensures EndsWithBlank(world, line + rest) == (NEWLINE in rest && EndsWithBlank(world, rest))
  {
    FirstOf(line, rest);
    hide IsLine;
    assert NEWLINE !in rest ==> !EndsWithBlank(world, rest);
  }

  lemma AfterEnd(world: World, end: seq<Byte>, rest: seq<Byte>)
    requires world.Valid() && EndsHead(world, end)
    ensures AfterHeaders(world, end + rest) == Some(rest)
    ensures EndsWithBlank(world, end)
  {
    FirstOf(end, rest);
    FirstOf(end, []);
    assert end + [] == end;
  }

  lemma Assoc(a: seq<Byte>, b: seq<Byte>, c: seq<Byte>)
    ensures a + b + c == a + (b + c)
  {
  }

  /** Behind any header lines and the blank line begins what is meant for the upstream. */
  lemma {:induction false} AfterHead(world: World, headers: seq<seq<Byte>>, end: seq<Byte>, rest: seq<Byte>)
    requires world.Valid() && AreHeaders(world, headers) && EndsHead(world, end)
    ensures AfterHeaders(world, Flatten(headers) + (end + rest)) == Some(rest)
    ensures EndsWithBlank(world, Flatten(headers) + end)
    decreases |headers|
  {
    hide AfterHeaders, EndsWithBlank, IsHeader, EndsHead;
    if headers == [] {
      AfterEnd(world, end, rest);
      assert [] + (end + rest) == end + rest && [] + end == end;
    } else {
      var line, more := headers[0], Flatten(headers[1..]);
      AfterHead(world, headers[1..], end, rest);
      Assoc(line, more, end + rest);
      Assoc(line, more, end);
      AfterLine(world, line, more + (end + rest));
      AfterLine(world, line, more + end);
      BlankHasNewline(world, more + end);
    }
  }

  lemma BlankHasNewline(world: World, s: seq<Byte>)
    requires world.Valid() && EndsWithBlank(world, s)
    ensures NEWLINE in s
  {
  }

  /** A stream that ends within its header lines leaves nothing for the upstream. */
  lemma {:induction false} EndedHead(world: World, headers: seq<seq<Byte>>)
    requires world.Valid() && AreHeaders(world, headers)
    ensures AfterHeaders(world, Flatten(headers)) == Some([])
  {
    if headers != [] {
      var line, more := headers[0], Flatten(headers[1..]);
      assert IsHeader(world, headers[0]);
      EndedHead(world, headers[1..]);
      FirstOf(line, more);
    }
  }

  // ---------- The handler ----------

  /** The answer depends on what is left to fetch only as far as it is relayed. */
  lemma RespondByFlatten(world: World, allow: set<string>, line: string, a: seq<seq<Byte>>, b: seq<seq<Byte>>)
    requires Flatten(a) == Flatten(b)
    ensures Respond(world, allow, line, a) == Respond(world, allow, line, b)
  {
    hide SplitWhitespace, TargetKey, Flatten;
  }

  /**
   When one of the reads ends right behind the head, the answer to the request line is all that
   happens, and exactly the later bytes are relayed, whatever the header lines are and however
   the head was cut into reads.
   */
  lemma HeadThenLater(world: World, allow: set<string>, head: seq<seq<Byte>>, line: seq<Byte>, text: string,
                      headers: seq<seq<Byte>>, end: seq<Byte>, later: seq<seq<Byte>>)
    requires world.Valid() && IsLine(line) && world.utf8(line) == Some(text) && text != ""
    requires AreHeaders(world, headers) && EndsHead(world, end)
    requires Flatten(head) == line + (Flatten(headers) + end)
    ensures Trace(world, allow, [], head + later) == Respond(world, allow, text, later)
  {
    var tail := Flatten(headers) + end;
    FirstOf(line, tail);
    AfterHead(world, headers, end, []);
    var first := FetchLine([], head);
    FirstFetch(head, later, line, tail);
    hide FetchLine, LineLength, EndsWithBlank, DrainHeaders, Respond, AreHeaders, IsLine, EndsHead, Flatten;
    DrainStopsAtBlank(world, first.buffer, first.chunks, later);
    var drained := DrainHeaders(world, first.buffer, first.chunks + later).value;
    RespondByFlatten(world, allow, text, drained.chunks, later);
  }

  lemma FirstFetch(head: seq<seq<Byte>>, later: seq<seq<Byte>>, line: seq<Byte>, tail: seq<Byte>)
    requires IsLine(line) && Flatten(head) == line + tail
    ensures var first := FetchLine([], head);
            && first.line == line && first.buffer + Flatten(first.chunks) == tail
            && FetchLine([], head + later) == Fetched(line, first.buffer, first.chunks + later)
  {
    FirstOf(line, tail);
    assert [] + Flatten(head) == Flatten(head);
    FetchLineIsFirstLine([], head);
    FetchLineWithin([], head, later);
    hide FetchLine, LineLength, Flatten;
  }

  /** Draining a head that is in the buffer keeps what is behind it there. */
  lemma {:induction false} DrainBuffered(world: World, headers: seq<seq<Byte>>, end: seq<Byte>, early: seq<Byte>,
                                         later: seq<seq<Byte>>)
    requires world.Valid() && AreHeaders(world, headers) && EndsHead(world, end)
    ensures DrainHeaders(world, Flatten(headers) + (end + early), later) == Some(Fetched(end, early, later))
    decreases |headers|
  {
    if headers == [] {
      assert [] + (end + early) == end + early;
      FetchFirst(end, early, later);
    } else {
      var line, more := headers[0], Flatten(headers[1..]);
      assert IsHeader(world, headers[0]);
      var rest := more + (end + early);
      assert Flatten(headers) + (end + early) == line + rest;
      FetchFirst(line, rest, later);
      assert FetchLine(line + rest, later) == Fetched(line, rest, later);
      hide FetchLine, IsLine;
      DrainBuffered(world, headers[1..], end, early, later);
    }
  }

  /** With the whole head in one read, the bytes behind it in that read are lost and all later ones are relayed. */
  lemma HeadWithEarlyBytes(world: World, allow: set<string>, line: seq<Byte>, text: string, headers: seq<seq<Byte>>,
                           end: seq<Byte>, early: seq<Byte>, later: seq<seq<Byte>>)
    requires world.Valid() && IsLine(line) && world.utf8(line) == Some(text) && text != ""
    requires AreHeaders(world, headers) && EndsHead(world, end)
    ensures Trace(world, allow, [], [line + (Flatten(headers) + (end + early))] + later) ==
            Respond(world, allow, text, later)
  {
    var rest := Flatten(headers) + (end + early);
    var chunks := [line + rest] + later;
    assert chunks[0] == line + rest && chunks[1..] == later;
    FetchFirst(line, rest, later);
    DrainBuffered(world, headers, end, early, later);
    assert FetchLine([], chunks) == Fetched(line, rest, later);
    hide FetchLine, DrainHeaders, Respond, AreHeaders, IsLine, Flatten;
  }

  /** Nothing is answered to a client that sends nothing, or whose request line is not UTF-8. */
  lemma NoRequest(world: World, allow: set<string>, chunks: seq<seq<Byte>>)
    requires world.Valid()
    ensures Trace(world, allow, [], []) == []
    ensures var s := Flatten(chunks);
            world.utf8(s[..LineLength(s)]).None? ==> Trace(world, allow, [], chunks) == []
  {
    assert [] + Flatten(chunks) == Flatten(chunks);
    FetchLineIsFirstLine([], chunks);
    hide LineLength;
  }

  /** A header line that is not UTF-8 ends the connection without an answer, however the stream is cut. */
  lemma UnreadableHeader(world: World, allow: set<string>, chunks: seq<seq<Byte>>, line: seq<Byte>,
                         headers: seq<seq<Byte>>, bad: seq<Byte>, rest: seq<Byte>)
    requires world.Valid() && IsLine(line) && AreHeaders(world, headers)
    requires IsLine(bad) && world.utf8(bad).None?
    requires Flatten(chunks) == line + (Flatten(headers) + (bad + rest))
    ensures Trace(world, allow, [], chunks) == []
  {
    var tail := Flatten(headers) + (bad + rest);
    FirstOf(line, tail);
    AfterUnreadable(world, headers, bad, rest);
    var first := FetchLine([], chunks);
    assert [] + Flatten(chunks) == line + tail;
    FetchLineIsFirstLine([], chunks);
    assert first.buffer + Flatten(first.chunks) == tail;
    hide FetchLine, LineLength, DrainHeaders, AfterHeaders, AreHeaders, IsLine, Flatten, Respond;
    DrainMatchesStream(world, first.buffer, first.chunks);
  }

  lemma {:induction false} AfterUnreadable(world: World, headers: seq<seq<Byte>>, bad: seq<Byte>, rest: seq<Byte>)
    requires world.Valid() && AreHeaders(world, headers) && IsLine(bad) && world.utf8(bad).None?
    ensures AfterHeaders(world, Flatten(headers) + (bad + rest)).None?
    decreases |headers|
  {
    if headers == [] {
      FirstOf(bad, rest);
      assert [] + (bad + rest) == bad + rest;
    } else {
      var line, more := headers[0], Flatten(headers[1..]);
      assert IsHeader(world, headers[0]);
      hide AfterHeaders, IsHeader, IsLine;
      AfterUnreadable(world, headers[1..], bad, rest);
      Assoc(line, more, bad + rest);
      AfterLine(world, line, more + (bad + rest));
    }
  }

  // ---------- One request with a header line ----------

  const HOST_LINE: seq<Byte> := [72, 111, 115, 116, 58, 32, 104, 58, 49, 13, 10]

  lemma HostLineIsHeader()
    ensures AreHeaders(WILLING, [HOST_LINE]) && EndsHead(WILLING, CRLF)
  {
    assert Ascii(HOST_LINE).value == "Host: h:1\r\n";
    assert "Host: h:1\r\n"[0] == 'H';
    assert Ascii(CRLF).value == "\r\n";
    assert IsLine(HOST_LINE) && IsLine(CRLF);
  }

  /** Each line one read: the upstream gets the one byte behind the head, and no part of the head. */
  lemma HostLineIsDrained()
    ensures WILLING.Valid()
    ensures var allow := ProxyAllow([Endpoint("h", 1)]);
            Trace(WILLING, allow, [], [REQUEST_BYTES, HOST_LINE, CRLF, [88]]) ==
            [Connect("h:1"), Status(200), Relayed("h:1", [88])]
  {
    RequestDecodes();
    RequestIsWords();
    ConnectIsLower();
    TargetIsListed();
    HostLineIsHeader();
    hide SplitWhitespace, Lower, TargetKey, ProxyAllow, Trace, AreHeaders, EndsHead, IsLine, Ascii, Respond;
    var allow := ProxyAllow([Endpoint("h", 1)]);
    var head := [REQUEST_BYTES, HOST_LINE, CRLF];
    FlattenThree(REQUEST_BYTES, HOST_LINE, CRLF);
    HeadThenLater(WILLING, allow, head, REQUEST_BYTES, REQUEST, [HOST_LINE], CRLF, [[88]]);
    OpensTunnel(WILLING, allow, REQUEST, "h:1", [[88]]);
    assert head + [[88]] == [REQUEST_BYTES, HOST_LINE, CRLF, [88]];
    FlattenOne([88]);
  }

  lemma FlattenOne(a: seq<Byte>)
    ensures Flatten([a]) == a
  {
    assert [a][1..] == [];
  }

  lemma FlattenThree(a: seq<Byte>, b: seq<Byte>, c: seq<Byte>)
    ensures Flatten([a, b, c]) == a + (Flatten([b]) + c)
  {
    FlattenOne(b);
    FlattenOne(c);
    assert [a, b, c][1..] == [b, c] && [b, c][1..] == [c];
  }
}
