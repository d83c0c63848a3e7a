/**
 An accepted CONNECT from end to end: the handler hands what it has not fetched to the
 relay, and the relay delivers it (section 9.3.6 of RFC 9110).
 */
module Tunnel {
  import opened Bytes
  import Handler = ConnectHandler
  import Relay

  /** The bytes a client sends behind the head of its request. */
  function SentThrough(world: Handler.World, chunks: seq<seq<Byte>>): seq<Byte>
    requires world.Valid()
  {
    var stream := Flatten(chunks);
    var after := Handler.AfterHeaders(world, stream[Handler.LineLength(stream)..]);
    if after.Some? then after.value else []
  }

  /** The relay that a connection ends in, with `server` sent back, in any interleaving of its two tasks. */
  ghost predicate Relays(world: Handler.World, allow: set<string>, chunks: seq<seq<Byte>>, server: seq<Byte>,
                         states: seq<Relay.Tunnel>, steps: seq<Relay.Step>)
    requires world.Valid()
  {
    var tunnel := Handler.RelayedBytes(Handler.Trace(world, allow, [], chunks));
    tunnel.Some? && Relay.IsRun(states, steps, tunnel.value, server)
  }

  /** At any moment the upstream has received a piece of what the client sent, with no gap inside it. */
  lemma UpstreamGetsPiece(world: Handler.World, allow: set<string>, chunks: seq<seq<Byte>>, server: seq<Byte>,
                          states: seq<Relay.Tunnel>, steps: seq<Relay.Step>)
    requires world.Valid() && Relays(world, allow, chunks, server, states, steps)
    ensures exists i, j :: 0 <= i <= j <= |SentThrough(world, chunks)| &&
              states[|steps|].up.delivered == SentThrough(world, chunks)[i..j]
  {
    var tunnel := Handler.RelayedBytes(Handler.Trace(world, allow, [], chunks)).value;
    Handler.TunnelCarries(world, allow, chunks);
    Relay.RelayIsFaithful(states, steps, tunnel, server);
    var sent, delivered := SentThrough(world, chunks), states[|steps|].up.delivered;
    hide *;
    Piece(sent, tunnel, delivered);
  }

  lemma Piece(sent: seq<Byte>, tunnel: seq<Byte>, delivered: seq<Byte>)
    requires |tunnel| <= |sent| && tunnel == sent[|sent| - |tunnel|..] && delivered <= tunnel
    ensures exists i, j :: 0 <= i <= j <= |sent| && delivered == sent[i..j]
  {
    var i := |sent| - |tunnel|;
    assert delivered == sent[i..i + |delivered|];
  }

  /**
   When the up direction has ended without an error, the upstream has received everything
   that the client sent behind its head, if and only if one of the reads of the head ended
   right behind the blank line.
   */
  lemma UpstreamGetsAll(world: Handler.World, allow: set<string>, chunks: seq<seq<Byte>>, server: seq<Byte>,
                        states: seq<Relay.Tunnel>, steps: seq<Relay.Step>)
    requires world.Valid() && Relays(world, allow, chunks, server, states, steps)
    requires !states[|steps|].up.running && Relay.Faultless(steps, true)
    ensures states[|steps|].up.delivered == SentThrough(world, chunks) <==>
            Handler.BoundaryBefore(chunks, SentThrough(world, chunks))
  {
    Handler.TunnelCarries(world, allow, chunks);
    var tunnel := Handler.RelayedBytes(Handler.Trace(world, allow, [], chunks)).value;
    Relay.RelayDeliversAll(states, steps, tunnel, server);
  }
}
