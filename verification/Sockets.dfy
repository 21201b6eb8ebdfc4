/** The socket side: serving a batch of socket tasks (`poll_and_execute_socket_task`), and handing an upgraded
    connection over to the relay (`handle_via_sockets`). */
module Sockets {
  import opened Wrappers
  import opened Http
  import opened Executors

  // ---------- a batch of socket tasks ----------

  datatype SocketTask = SocketTask(id: nat, from: Sender)

  /** The answer of the proxy to a connect: a status, or a transport error. */
  datatype Connect = Status(status: nat) | Unreachable

  datatype SocketError = InvalidSender | ConnectRefused(status: nat) | ProxyUnreachable

  /** A tunnel serves one task for the app that sent it. */
  datatype Tunnel = Tunnel(task: nat, client: string)

  predicate Connects(task: SocketTask, answer: Connect) {
    task.from.App? && answer == Status(SWITCHING_PROTOCOLS)
  }

  function TunnelOf(task: SocketTask): Tunnel {
    Tunnel(task.id, task.from.id)
  }

  function TunnelsOf(tasks: seq<SocketTask>): seq<Tunnel> {
    seq(|tasks|, i requires 0 <= i < |tasks| => TunnelOf(tasks[i]))
  }

  function ErrorOf(task: SocketTask, answer: Connect): SocketError {
    if !task.from.App? then InvalidSender
    else if answer.Unreachable? then ProxyUnreachable
    else ConnectRefused(answer.status)
  }

  /** `answer(i)` is what connecting for task number `i` brings back.  The first `n` tasks connect and no more. */
  predicate LongestPrefix(tasks: seq<SocketTask>, answer: nat -> Connect, n: nat) {
    && n <= |tasks|
    && (forall i :: 0 <= i < n ==> Connects(tasks[i], answer(i)))
    && (n < |tasks| ==> !Connects(tasks[n], answer(n)))
  }

  method ServeBatch(tasks: seq<SocketTask>, answer: nat -> Connect)
    returns (r: Result<(), SocketError>, spawned: seq<Tunnel>)
    ensures LongestPrefix(tasks, answer, |spawned|)
    ensures spawned == TunnelsOf(tasks[..|spawned|])
    ensures r == if |spawned| == |tasks| then Success(())
                 else Failure(ErrorOf(tasks[|spawned|], answer(|spawned|)))
    ensures forall i :: 0 <= i < |spawned| ==>
              && tasks[i].from == App(spawned[i].client) && tasks[i].id == spawned[i].task
              && answer(i) == Status(101)
    ensures |spawned| < |tasks| ==>
              match (tasks[|spawned|].from, answer(|spawned|))
              case (Proxy(_), _) => r == Failure(InvalidSender)
              case (App(_), Unreachable) => r == Failure(ProxyUnreachable)
              case (App(_), Status(status)) => status != 101 && r == Failure(ConnectRefused(status))
  {
    spawned := [];
    for i := 0 to |tasks|
      invariant |spawned| == i
      invariant forall j :: 0 <= j < i ==> Connects(tasks[j], answer(j))
      invariant spawned == TunnelsOf(tasks[..i])
    {
      var task := tasks[i];
      if !task.from.App? {
        return Failure(InvalidSender), spawned;
      }
      var resp := answer(i);
      if resp == Unreachable {
        return Failure(ProxyUnreachable), spawned;
      }
      if resp.status != SWITCHING_PROTOCOLS {
        return Failure(ConnectRefused(resp.status)), spawned;
      }
      spawned := spawned + [Tunnel(task.id, task.from.id)];
    }
    return Success(()), spawned;
  }

  // ---------- handing over an upgraded connection ----------

  /** What one write to the client does: it takes some bytes of those offered, or fails. */
  datatype Write = Takes(most: nat) | Fails

  /** The client's end of the connection: the bytes it has received, and how its next writes will go. */
  class Client {
    var received: Bytes
    const writes: nat -> Write
    var written: nat

    constructor (writes: nat -> Write)
      ensures received == [] && written == 0 && this.writes == writes
    {
      this.writes, received, written := writes, [], 0;
    }

    /** One write; taking nothing of a non-empty offer is an error too. */
    method Put(offer: Bytes) returns (taken: nat, ok: bool)
      requires offer != []
      modifies this`received, this`written
      ensures taken <= |offer|
      ensures received == old(received) + offer[..taken]
      ensures written == old(written) + 1
      ensures ok == Accepts(writes(old(written)))
      ensures taken == Taken(writes(old(written)), |offer|)
    {
      var w := writes(written);
      written := written + 1;
      taken := 0;
      ok := w.Takes? && w.most > 0;
      if ok {
        taken := if w.most < |offer| then w.most else |offer|;
        received := received + offer[..taken];
      }
    }
  }

  predicate Accepts(w: Write) {
    w.Takes? && w.most > 0
  }

  function Taken(w: Write, offered: nat): nat {
    if !Accepts(w) then 0 else if w.most < offered then w.most else offered
  }

  /** What is left of the buffer when it is written from write number `from` on, up to the first error. */
  function Left(writes: nat -> Write, from: nat, buffer: Bytes): (rest: Bytes)
    ensures |rest| <= |buffer|
    decreases |buffer|
  {
    if buffer == [] || !Accepts(writes(from)) then buffer
    else Left(writes, from + 1, buffer[Taken(writes(from), |buffer|)..])
  }

  /** It is the end of the buffer. */
  lemma {:induction false} LeftIsTheEnd(writes: nat -> Write, from: nat, buffer: Bytes)
    ensures var rest := Left(writes, from, buffer); rest == buffer[|buffer| - |rest|..]
    decreases |buffer|
  {
    if buffer != [] && Accepts(writes(from)) {
      LeftIsTheEnd(writes, from + 1, buffer[Taken(writes(from), |buffer|)..]);
    }
  }

  /** The number of the write after that. */
  function Next(writes: nat -> Write, from: nat, buffer: Bytes): nat
    decreases |buffer|
  {
    if buffer == [] then from
    else if !Accepts(writes(from)) then from + 1
    else Next(writes, from + 1, buffer[Taken(writes(from), |buffer|)..])
  }

  /** Writes the whole buffer piece by piece, draining it; stops at the first error. */
  method WriteAll(client: Client, buffer: Bytes) returns (rest: Bytes, ok: bool)
    modifies client`received, client`written
    ensures rest == Left(client.writes, old(client.written), buffer)
    ensures client.written == Next(client.writes, old(client.written), buffer)
    ensures |rest| <= |buffer| && rest == buffer[|buffer| - |rest|..]
    ensures client.received == old(client.received) + buffer[..|buffer| - |rest|]
    ensures ok <==> rest == []
  {
    rest := buffer;
    while rest != []
      invariant |rest| <= |buffer| && rest == buffer[|buffer| - |rest|..]
      invariant client.received == old(client.received) + buffer[..|buffer| - |rest|]
      invariant Left(client.writes, client.written, rest) == Left(client.writes, old(client.written), buffer)
      invariant Next(client.writes, client.written, rest) == Next(client.writes, old(client.written), buffer)
      decreases |rest|
    {
      var taken, accepted := client.Put(rest);
      if !accepted {
        return rest, false;
      }
      ghost var done := |buffer| - |rest|;
      assert buffer[..done] + rest[..taken] == buffer[..done + taken];
      rest := rest[taken..];
    }
    ok := true;
  }

  /** The most that writes number `from` to `to` take together. */
  function Room(writes: nat -> Write, from: nat, to: nat): nat
    decreases to - from
  {
    if to <= from then 0
    else (if writes(from).Takes? then writes(from).most else 0) + Room(writes, from + 1, to)
  }

  ghost predicate AllAccept(writes: nat -> Write, from: nat, to: nat) {
    forall k: nat :: from <= k < to ==> Accepts(writes(k))
  }

  /** Writes number `from` to `to` all succeed, and have room for the whole buffer. */
  ghost predicate Drains(writes: nat -> Write, from: nat, to: nat, buffer: Bytes) {
    AllAccept(writes, from, to) && |buffer| <= Room(writes, from, to)
  }

  /** Nothing is left of the buffer exactly if, before any write fails, the writes have room for all of it. */
  lemma {:induction false} NothingLeftExactly(writes: nat -> Write, from: nat, buffer: Bytes)
    ensures Left(writes, from, buffer) == [] <==> exists to: nat :: Drains(writes, from, to, buffer)
    decreases |buffer|
  {
    if buffer == [] {
      assert Drains(writes, from, from, buffer);
    } else if !Accepts(writes(from)) {
      forall to: nat | AllAccept(writes, from, to) ensures !Drains(writes, from, to, buffer) {
        assert to <= from;
      }
    } else {
      var rest := buffer[Taken(writes(from), |buffer|)..];
      var next := from + 1;
      NothingLeftExactly(writes, next, rest);
      if exists to: nat :: Drains(writes, next, to, rest) {
        var to: nat :| Drains(writes, next, to, rest);
        if to > from {
          assert Drains(writes, from, to, buffer);
        } else {
          assert Room(writes, from, from + 1) == writes(from).most + Room(writes, from + 1, from + 1);
          assert Drains(writes, from, from + 1, buffer);
        }
      }
      forall to: nat | Drains(writes, from, to, buffer) ensures Drains(writes, next, to, rest) {
      }
    }
  }

  function Concat(chunks: seq<Bytes>): Bytes {
    if chunks == [] then [] else chunks[0] + Concat(chunks[1..])
  }

  /** Every chunk is written whole. */
  predicate Relays(writes: nat -> Write, from: nat, chunks: seq<Bytes>)
    decreases |chunks|
  {
    chunks != [] ==>
      && Left(writes, from, chunks[0]) == []
      && Relays(writes, Next(writes, from, chunks[0]), chunks[1..])
  }

  /** No write fails from number `from` on. */
  ghost predicate AlwaysAccepts(writes: nat -> Write, from: nat) {
    forall k: nat :: k >= from ==> Accepts(writes(k))
  }

  lemma {:induction false} ChunkPasses(writes: nat -> Write, from: nat, chunk: Bytes)
    requires AlwaysAccepts(writes, from)
    ensures Left(writes, from, chunk) == [] && Next(writes, from, chunk) >= from
    decreases |chunk|
  {
    if chunk != [] {
      ChunkPasses(writes, from + 1, chunk[Taken(writes(from), |chunk|)..]);
    }
  }

  lemma {:induction false} ChunksPass(writes: nat -> Write, from: nat, chunks: seq<Bytes>)
    requires AlwaysAccepts(writes, from)
    ensures Relays(writes, from, chunks)
    decreases |chunks|
  {
    if chunks != [] {
      ChunkPasses(writes, from, chunks[0]);
      ChunksPass(writes, Next(writes, from, chunks[0]), chunks[1..]);
    }
  }

  /** What the client receives when relaying goes through. */
  function Received(writes: nat -> Write, from: nat, readBuf: Bytes, chunks: seq<Bytes>): Bytes {
    readBuf[..|readBuf| - |Left(writes, from, readBuf)|] + Concat(chunks)
  }

  /** Without write errors relaying goes through and the client receives the byte stream of the proxy, wherever it is
      split into what was read before and what arrives later. */
  lemma NoErrorIsLossless(writes: nat -> Write, from: nat, readBuf: Bytes, chunks: seq<Bytes>)
    requires AlwaysAccepts(writes, from)
    ensures Relays(writes, Next(writes, from, readBuf), chunks)
    ensures Received(writes, from, readBuf, chunks) == readBuf + Concat(chunks)
  {
    ChunkPasses(writes, from, readBuf);
    ChunksPass(writes, Next(writes, from, readBuf), chunks);
  }

  /** The hand-over: first the bytes that were read from the proxy together with its response, then whatever else
      arrives from it, in chunks.  An error while writing the first is only logged, and relaying starts anyway.
      `lost` is what was not written of the buffer. */
  method HandOver(client: Client, readBuf: Bytes, chunks: seq<Bytes>) returns (lost: Bytes, relayed: bool)
    requires client.received == []
    modifies client`received, client`written
    ensures lost == Left(client.writes, old(client.written), readBuf)
    ensures relayed <==> Relays(client.writes, Next(client.writes, old(client.written), readBuf), chunks)
    ensures relayed ==> client.received == Received(client.writes, old(client.written), readBuf, chunks)
  {
    lost := [];
    if readBuf != [] {
      var rest, _ := WriteAll(client, readBuf);
      lost := rest;
    }
    ghost var prefix, first := client.received, client.written;
    relayed := true;
    for i := 0 to |chunks|
      invariant client.received + Concat(chunks[i..]) == prefix + Concat(chunks)
      invariant Relays(client.writes, client.written, chunks[i..]) <==> Relays(client.writes, first, chunks)
    {
      assert chunks[i..][0] == chunks[i] && chunks[i..][1..] == chunks[i + 1..];
      ghost var before := client.received;
      var _, ok := WriteAll(client, chunks[i]);
      if !ok {
        return lost, false;
      }
      assert before + (chunks[i] + Concat(chunks[i + 1..])) == client.received + Concat(chunks[i + 1..]);
    }
    assert client.received + [] == client.received;
  }

  /** The hand-over is lossless, each byte once and in order, exactly if the writes that drain the buffer succeed. */
  lemma LosslessExactly(writes: nat -> Write, from: nat, readBuf: Bytes, chunks: seq<Bytes>)
    ensures Received(writes, from, readBuf, chunks) == readBuf + Concat(chunks) <==>
            exists to: nat :: Drains(writes, from, to, readBuf)
  {
    NothingLeftExactly(writes, from, readBuf);
    if Left(writes, from, readBuf) != [] {
      assert |Received(writes, from, readBuf, chunks)| < |readBuf + Concat(chunks)|;
    }
  }

  /** The first write fails and all later ones take up to `size` bytes. */
  function FirstFails(size: nat): nat -> Write {
    k => if k == 0 then Fails else Takes(size)
  }

  /** The loss is real: if the first write fails and later ones do not, relaying goes through, and the client receives
      what came after the buffer and nothing of the buffer itself. */
  lemma BufferCanBeLost(readBuf: Bytes, chunks: seq<Bytes>, size: nat)
    requires readBuf != [] && size > 0
    ensures Relays(FirstFails(size), Next(FirstFails(size), 0, readBuf), chunks)
    ensures Received(FirstFails(size), 0, readBuf, chunks) == Concat(chunks)
  {
    ChunksPass(FirstFails(size), 1, chunks);
  }
}
