/**
 Fixed-size records on a byte stream that arrives in chunks of any size.
 */
module Framing {
  type Bytes = seq<bv8>

  /** The whole records at the front of a byte string. */
  function Records(size: nat, bytes: Bytes): seq<Bytes>
    requires size > 0
  {
    if |bytes| < size then [] else [bytes[..size]] + Records(size, bytes[size..])
  }

  /** What follows the last whole record. */
  function Rest(size: nat, bytes: Bytes): (r: Bytes)
    requires size > 0
    ensures |r| < size && |r| <= |bytes|
  {
    if |bytes| < size then bytes else Rest(size, bytes[size..])
  }

  lemma {:induction false} RecordsSplit(size: nat, a: Bytes, b: Bytes)
    requires size > 0
    ensures Records(size, a + b) == Records(size, a) + Records(size, Rest(size, a) + b)
    ensures Rest(size, a + b) == Rest(size, Rest(size, a) + b)
    decreases a
  {
    if |a| >= size {
      RecordsSplit(size, a[size..], b);
      assert (a + b)[size..] == a[size..] + b && (a + b)[..size] == a[..size];
    }
  }

  /** The first `index` bytes are the records `done`, and the rest is still to be taken apart. */
  ghost predicate TakenApart(size: nat, bytes: Bytes, index: nat, done: seq<Bytes>)
    requires size > 0 && index <= |bytes|
  {
    && Records(size, bytes) == done + Records(size, bytes[index..])
    && Rest(size, bytes) == Rest(size, bytes[index..])
  }

  lemma TakenApartStart(size: nat, bytes: Bytes)
    requires size > 0
    ensures TakenApart(size, bytes, 0, [])
  {
    assert bytes[0..] == bytes;
  }

  lemma TakenApartStep(size: nat, bytes: Bytes, index: nat, done: seq<Bytes>)
    requires size > 0 && index + size <= |bytes| && TakenApart(size, bytes, index, done)
    ensures TakenApart(size, bytes, index + size, done + [bytes[index..index + size]])
  {
    assert bytes[index..][..size] == bytes[index..index + size];
    assert bytes[index..][size..] == bytes[index + size..];
  }

  lemma TakenApartEnd(size: nat, bytes: Bytes, index: nat, done: seq<Bytes>)
    requires size > 0 && index <= |bytes| < index + size && TakenApart(size, bytes, index, done)
    ensures Records(size, bytes) == done && Rest(size, bytes) == bytes[index..]
  {
  }

  function Flat(chunks: seq<Bytes>): Bytes {
    if chunks == [] then [] else Flat(chunks[..|chunks| - 1]) + chunks[|chunks| - 1]
  }

  /** The records found and the bytes kept by a receiver that after each chunk takes the whole records
      off the front of its buffer. */
  function Received(size: nat, chunks: seq<Bytes>): (seq<Bytes>, Bytes)
    requires size > 0
  {
    if chunks == [] then ([], [])
    else
      var (found, kept) := Received(size, chunks[..|chunks| - 1]);
      var buffer := kept + chunks[|chunks| - 1];
      (found + Records(size, buffer), Rest(size, buffer))
  }

  /** However a stream is cut into chunks, the records found are those of the whole stream. */
  lemma {:induction false} ChunkingIsInvisible(size: nat, chunks: seq<Bytes>)
    requires size > 0
    ensures Received(size, chunks) == (Records(size, Flat(chunks)), Rest(size, Flat(chunks)))
  {
    if chunks != [] {
      ChunkingIsInvisible(size, chunks[..|chunks| - 1]);
      RecordsSplit(size, Flat(chunks[..|chunks| - 1]), chunks[|chunks| - 1]);
    }
  }
}

/**
 The order server, with the order gateway at the other end: requests come in on sequenced byte streams, and
 responses go out numbered for each client.
 */
module OrderServer {
  import opened Framing
  import Messages

  datatype Message = Message(sequence: nat, client: nat, payload: Bytes)

  /** The binary layout of a message. */
  datatype Layout = Layout(size: nat, parse: Bytes -> Message)

  /** The socket each client is bound to, the next sequence number expected of each client (1 at
      first), and the requests handed to the sequencer. */
  datatype Server = Server(sockets: map<nat, nat>, expected: map<nat, nat>, accepted: seq<Message>)

  function Expected(s: Server, client: nat): nat {
    if client in s.expected then s.expected[client] else 1
  }

  /** One record of recvCallBack. */
  function Handle(s: Server, socket: nat, m: Message): Server {
    var bound := if m.client in s.sockets then s else s.(sockets := s.sockets[m.client := socket]);
    if bound.sockets[m.client] != socket then bound
    else if m.sequence != Expected(s, m.client) then bound
    else bound.(expected := s.expected[m.client := m.sequence + 1], accepted := s.accepted + [m])
  }

  function HandleAll(s: Server, socket: nat, records: seq<Bytes>, layout: Layout): Server {
    if records == [] then s
    else
      var prior := HandleAll(s, socket, records[..|records| - 1], layout);
      Handle(prior, socket, layout.parse(records[|records| - 1]))
  }

  lemma HandleNone(s: Server, socket: nat, layout: Layout)
    ensures HandleAll(s, socket, [], layout) == s
  {
  }

  lemma HandleOneMore(s: Server, socket: nat, records: seq<Bytes>, record: Bytes, layout: Layout)
    ensures HandleAll(s, socket, records + [record], layout) ==
      Handle(HandleAll(s, socket, records, layout), socket, layout.parse(record))
  {
    assert (records + [record])[..|records|] == records;
  }

  class TCPSocket {
    const fd: nat
    const buffer: array<bv8>
    var valid: nat

    constructor (fd: nat, capacity: nat)
      ensures this.fd == fd && valid == 0 && buffer.Length == capacity && fresh(buffer)
    {
      this.fd, valid := fd, 0;
      buffer := new bv8[capacity];
    }
  }

  /** memcpy inside one buffer: the two ranges must not overlap. */
  method CopyToFront(buffer: array<bv8>, source: nat, length: nat)
    requires source + length <= buffer.Length && length <= source
    modifies buffer
    ensures buffer[..length] == old(buffer[source..source + length])
    ensures buffer[length..] == old(buffer[length..])
  {
    for i := 0 to length
      invariant buffer[..i] == old(buffer[source..source + i])
      invariant buffer[i..] == old(buffer[i..])
    {
      buffer[i] := buffer[source + i];
    }
  }

  // ----- Responses

  /** A response as it leaves the server. */
  datatype Outgoing = Outgoing(socket: nat, sequence: nat, response: Messages.Response)

  /** How many responses have gone out in the name of a client. */
  function CountFor(sent: seq<Outgoing>, client: nat): nat {
    if sent == [] then 0
    else CountFor(sent[..|sent| - 1], client) + if sent[|sent| - 1].response.client == client then 1 else 0
  }

  /** The responses in the name of each client are numbered 1, 2, 3 and so on, and `next` holds the next
      numbers. */
  ghost predicate NumberedFor(sent: seq<Outgoing>, next: map<nat, nat>) {
    && (forall c :: (if c in next then next[c] else 1) == CountFor(sent, c) + 1)
    && (forall i {:trigger sent[i]} :: 0 <= i < |sent| ==> sent[i].sequence == CountFor(sent[..i], sent[i].response.client) + 1)
  }

  /** These are the responses `rs`, each sent to the socket of the client it names. */
  ghost predicate Addressed(sockets: map<nat, nat>, out: seq<Outgoing>, rs: seq<Messages.Response>) {
    && |out| == |rs|
    && forall i :: 0 <= i < |out| ==>
         rs[i].client in sockets && out[i].response == rs[i] && out[i].socket == sockets[rs[i].client]
  }

  lemma AddressedNone(sockets: map<nat, nat>)
    ensures Addressed(sockets, [], [])
  {
  }

  lemma AddressedMore(sockets: map<nat, nat>, out: seq<Outgoing>, rs: seq<Messages.Response>, o: Outgoing)
    requires Addressed(sockets, out, rs) && o.response.client in sockets && o.socket == sockets[o.response.client]
    ensures Addressed(sockets, out + [o], rs + [o.response])
  {
  }

  lemma NumberedOneMore(sent: seq<Outgoing>, next: map<nat, nat>, o: Outgoing)
    requires NumberedFor(sent, next) && o.sequence == CountFor(sent, o.response.client) + 1
    ensures NumberedFor(sent + [o], next[o.response.client := o.sequence + 1])
  {
    var out := sent + [o];
    assert out[..|sent|] == sent;
    forall i | 0 <= i < |out| ensures out[i].sequence == CountFor(out[..i], out[i].response.client) + 1 {
      if i < |sent| {
        assert out[..i] == sent[..i] && out[i] == sent[i];
      }
    }
  }

  class OrderServer {
    const layout: Layout
    var sockets: map<nat, nat>
    var expected: map<nat, nat>
    var accepted: seq<Message>
    var nextOutgoing: map<nat, nat>
    var sent: seq<Outgoing>

    ghost function State(): Server
      reads this
    {
      Server(sockets, expected, accepted)
    }

    constructor (layout: Layout)
      ensures this.layout == layout && State() == Server(map[], map[], [])
      ensures sent == [] && NumberedFor(sent, nextOutgoing)
    {
      this.layout := layout;
      sockets, expected, accepted := map[], map[], [];
      nextOutgoing, sent := map[], [];
    }

    /** One response: to the socket of the client it names, with that client's next number. */
    method SendResponse(r: Messages.Response)
      requires NumberedFor(sent, nextOutgoing) && r.client in sockets
      modifies `nextOutgoing, `sent
      ensures NumberedFor(sent, nextOutgoing)
      ensures sent == old(sent) + [Outgoing(sockets[r.client], CountFor(old(sent), r.client) + 1, r)]
    {
      hide CountFor;
      var number := if r.client in nextOutgoing then nextOutgoing[r.client] else 1;
      NumberedOneMore(sent, nextOutgoing, Outgoing(sockets[r.client], number, r));
      sent := sent + [Outgoing(sockets[r.client], number, r)];
      nextOutgoing := nextOutgoing[r.client := number + 1];
    }

    /** The send loop of run; `n` is how many responses went out before the ASSERT on a client without a socket
        stopped the server. */
    method SendResponses(rs: seq<Messages.Response>) returns (n: nat)
      requires NumberedFor(sent, nextOutgoing)
      modifies `nextOutgoing, `sent
      ensures n <= |rs| && (n < |rs| ==> rs[n].client !in sockets)
      ensures |old(sent)| <= |sent| && sent[..|old(sent)|] == old(sent)
      ensures Addressed(sockets, sent[|old(sent)|..], rs[..n])
      ensures NumberedFor(sent, nextOutgoing)
    {
      hide NumberedFor, CountFor, Addressed;
      ghost var before, out: seq<Outgoing> := sent, [];
      n := 0;
      assert rs[..0] == [];
      AddressedNone(sockets);
      while n < |rs|
        invariant n <= |rs| && NumberedFor(sent, nextOutgoing)
        invariant sent == before + out && Addressed(sockets, out, rs[..n])
      {
        if rs[n].client !in sockets {
          break;
        }
        AddressedMore(sockets, out, rs[..n], Outgoing(sockets[rs[n].client], CountFor(sent, rs[n].client) + 1, rs[n]));
        out := out + [Outgoing(sockets[rs[n].client], CountFor(sent, rs[n].client) + 1, rs[n])];
        assert rs[..n + 1] == rs[..n] + [rs[n]];
        SendResponse(rs[n]);
        n := n + 1;
      }
      assert sent[|before|..] == out;
    }

    method HandleRecord(fd: nat, m: Message)
      modifies `sockets, `expected, `accepted
      ensures State() == Handle(old(State()), fd, m)
    {
      if m.client !in sockets {
        sockets := sockets[m.client := fd];
      }
      if sockets[m.client] == fd {
        var next := if m.client in expected then expected[m.client] else 1;
        if m.sequence == next {
          expected := expected[m.client := next + 1];
          accepted := accepted + [m];
        }
      }
    }

    /** Takes the whole records off the front of the socket's buffer and moves what is left to the
        front. The move never overlaps: what is left is shorter than one record. */
    method RecvCallBack(socket: TCPSocket)
      requires layout.size > 0 && socket.valid <= socket.buffer.Length
      modifies `sockets, `expected, `accepted, socket, socket.buffer
      ensures socket.valid <= socket.buffer.Length
      ensures socket.buffer[..socket.valid] == Rest(layout.size, old(socket.buffer[..socket.valid]))
      ensures State() ==
        HandleAll(old(State()), socket.fd, Records(layout.size, old(socket.buffer[..socket.valid])), layout)
    {
      hide TakenApart, Records, Rest, HandleAll, Handle;
      ghost var bytes := socket.buffer[..socket.valid];
      ghost var done: seq<Bytes> := [];
      ghost var before := State();
      var size, index := layout.size, 0;
      TakenApartStart(size, bytes);
      HandleNone(before, socket.fd, layout);
      if socket.valid >= size {
        while index + size <= socket.valid
          invariant index <= socket.valid == |bytes| && (index == 0 || index >= size)
          invariant socket.buffer[..socket.valid] == bytes
          invariant TakenApart(size, bytes, index, done)
          invariant State() == HandleAll(before, socket.fd, done, layout)
        {
          var record := socket.buffer[index..index + size];
          assert record == bytes[index..index + size];
          TakenApartStep(size, bytes, index, done);
          HandleOneMore(before, socket.fd, done, record, layout);
          HandleRecord(socket.fd, layout.parse(record));
          done := done + [record];
          index := index + size;
        }
        TakenApartEnd(size, bytes, index, done);
        assert bytes[index..] == socket.buffer[index..socket.valid];
        CopyToFront(socket.buffer, index, socket.valid - index);
        socket.valid := socket.valid - index;
      } else {
        TakenApartEnd(size, bytes, 0, []);
      }
    }
  }

  // ----- What is accepted

  /** The accepted requests of one client. */
  function Of(ms: seq<Message>, client: nat): seq<Message> {
    if ms == [] then []
    else
      var prior := Of(ms[..|ms| - 1], client);
      if ms[|ms| - 1].client == client then prior + [ms[|ms| - 1]] else prior
  }

  /** The accepted requests of every client are numbered 1, 2, 3 and so on, and the next number is the
      one expected. */
  ghost predicate GapFree(s: Server) {
    forall c :: Expected(s, c) == |Of(s.accepted, c)| + 1 && Sequenced(Of(s.accepted, c))
  }

  predicate Sequenced(ms: seq<Message>) {
    forall i :: 0 <= i < |ms| ==> ms[i].sequence == i + 1
  }

  lemma HandleKeepsGapFree(s: Server, socket: nat, m: Message)
    requires GapFree(s)
    ensures GapFree(Handle(s, socket, m))
  {
    var s' := Handle(s, socket, m);
    forall c ensures Expected(s', c) == |Of(s'.accepted, c)| + 1 && Sequenced(Of(s'.accepted, c)) {
      assert Expected(s, c) == |Of(s.accepted, c)| + 1 && Sequenced(Of(s.accepted, c));
      if s'.accepted != s.accepted {
        assert s'.accepted[..|s.accepted|] == s.accepted;
      }
    }
  }

  /** A chunk of bytes arriving on a socket. */
  datatype Arrival = Arrival(socket: nat, chunk: Bytes)

  /** The server after some arrivals, and what each socket's buffer holds. */
  function Serve(layout: Layout, arrivals: seq<Arrival>): (Server, map<nat, Bytes>)
    requires layout.size > 0
  {
    if arrivals == [] then (Server(map[], map[], []), map[])
    else
      var (s, kept) := Serve(layout, arrivals[..|arrivals| - 1]);
      var a := arrivals[|arrivals| - 1];
      var buffer := (if a.socket in kept then kept[a.socket] else []) + a.chunk;
      (HandleAll(s, a.socket, Records(layout.size, buffer), layout), kept[a.socket := Rest(layout.size, buffer)])
  }

  lemma {:induction false} HandleAllKeepsGapFree(s: Server, socket: nat, records: seq<Bytes>, layout: Layout)
    requires GapFree(s)
    ensures GapFree(HandleAll(s, socket, records, layout))
    decreases records
  {
    if records != [] {
      hide GapFree, Handle;
      HandleAllKeepsGapFree(s, socket, records[..|records| - 1], layout);
      HandleKeepsGapFree(HandleAll(s, socket, records[..|records| - 1], layout), socket, layout.parse(records[|records| - 1]));
    }
  }

  /** Whatever arrives, on however many sockets and in whatever pieces, each client's accepted requests
      are numbered without gap or repeat. */
  lemma {:induction false} AcceptedWithoutGap(layout: Layout, arrivals: seq<Arrival>)
    requires layout.size > 0
    ensures GapFree(Serve(layout, arrivals).0)
  {
    if arrivals != [] {
      hide GapFree, HandleAll;
      AcceptedWithoutGap(layout, arrivals[..|arrivals| - 1]);
      var (s, kept) := Serve(layout, arrivals[..|arrivals| - 1]);
      var a := arrivals[|arrivals| - 1];
      var buffer := (if a.socket in kept then kept[a.socket] else []) + a.chunk;
      HandleAllKeepsGapFree(s, a.socket, Records(layout.size, buffer), layout);
    }
  }

  // ----- From the gateway to the server

  /** The gateway's run loop: each request gets the next number and its fixed-size encoding. */
  function Sent(client: nat, payloads: seq<Bytes>): seq<Message> {
    seq(|payloads|, i requires 0 <= i < |payloads| => Message(i + 1, client, payloads[i]))
  }

  function Stream(ms: seq<Message>, encode: Message -> Bytes): Bytes {
    if ms == [] then [] else Stream(ms[..|ms| - 1], encode) + encode(ms[|ms| - 1])
  }

  /** `encode` writes these messages so that `layout` reads them back. */
  predicate Agree(layout: Layout, encode: Message -> Bytes, ms: seq<Message>) {
    layout.size > 0 && forall i :: 0 <= i < |ms| ==> |encode(ms[i])| == layout.size && layout.parse(encode(ms[i])) == ms[i]
  }

  /** Cutting an encoded stream into records gives the encodings back. */
  lemma {:induction false} StreamRecords(layout: Layout, encode: Message -> Bytes, ms: seq<Message>)
    requires Agree(layout, encode, ms)
    ensures Records(layout.size, Stream(ms, encode)) == Encoded(ms, encode)
    ensures Rest(layout.size, Stream(ms, encode)) == []
    decreases ms
  {
    if ms != [] {
      hide Records, Rest;
      var prior, m := ms[..|ms| - 1], ms[|ms| - 1];
      StreamRecords(layout, encode, prior);
      RecordsSplit(layout.size, Stream(prior, encode), encode(m));
      assert [] + encode(m) == encode(m);
      OneRecord(layout.size, encode(m));
    }
  }

  function Encoded(ms: seq<Message>, encode: Message -> Bytes): seq<Bytes> {
    if ms == [] then [] else Encoded(ms[..|ms| - 1], encode) + [encode(ms[|ms| - 1])]
  }

  lemma {:induction false} EncodedAt(ms: seq<Message>, encode: Message -> Bytes, i: nat)
    requires i < |ms|
    ensures |Encoded(ms, encode)| == |ms| && Encoded(ms, encode)[i] == encode(ms[i])
    decreases ms
  {
    if |ms| > 1 {
      EncodedAt(ms[..|ms| - 1], encode, if i < |ms| - 1 then i else 0);
    }
  }

  lemma OneRecord(size: nat, record: Bytes)
    requires |record| == size > 0
    ensures Records(size, record) == [record] && Rest(size, record) == []
  {
    assert record[..size] == record && record[size..] == [];
  }

  // ----- One socket among others

  /** The chunks that arrive on one socket. */
  function ChunksOf(arrivals: seq<Arrival>, socket: nat): seq<Bytes> {
    if arrivals == [] then []
    else
      var prior := ChunksOf(arrivals[..|arrivals| - 1], socket);
      if arrivals[|arrivals| - 1].socket == socket then prior + [arrivals[|arrivals| - 1].chunk] else prior
  }

  function Parsed(layout: Layout, records: seq<Bytes>): seq<Message> {
    seq(|records|, i requires 0 <= i < |records| => layout.parse(records[i]))
  }

  /** No socket but this one has claimed the client. */
  predicate Unclaimed(s: Server, client: nat, socket: nat) {
    client in s.sockets ==> s.sockets[client] == socket
  }

  /** A record from another socket cannot add to what is accepted from the client, unless it claims it. */
  lemma OtherRecord(s: Server, other: nat, m: Message, client: nat, socket: nat)
    requires other != socket && Unclaimed(Handle(s, other, m), client, socket)
    ensures var s' := Handle(s, other, m);
      && Unclaimed(s, client, socket)
      && Of(s'.accepted, client) == Of(s.accepted, client) && Expected(s', client) == Expected(s, client)
  {
    var s' := Handle(s, other, m);
    if s'.accepted != s.accepted {
      assert s'.accepted[..|s.accepted|] == s.accepted;
    }
  }

  lemma {:induction false} OtherSocket(s: Server, other: nat, records: seq<Bytes>, layout: Layout, client: nat, socket: nat)
    requires other != socket && Unclaimed(HandleAll(s, other, records, layout), client, socket)
    ensures var s' := HandleAll(s, other, records, layout);
      && Unclaimed(s, client, socket)
      && Of(s'.accepted, client) == Of(s.accepted, client) && Expected(s', client) == Expected(s, client)
    decreases records
  {
    if records != [] {
      hide Handle, Unclaimed, Expected;
      var prior := HandleAll(s, other, records[..|records| - 1], layout);
      OtherRecord(prior, other, layout.parse(records[|records| - 1]), client, socket);
      OtherSocket(s, other, records[..|records| - 1], layout, client, socket);
    }
  }

  /** The client's own next record is accepted. */
  lemma OwnRecord(s: Server, socket: nat, m: Message)
    requires Unclaimed(s, m.client, socket) && m.sequence == Expected(s, m.client)
    ensures var s' := Handle(s, socket, m);
      && Unclaimed(s', m.client, socket) && Expected(s', m.client) == m.sequence + 1
      && Of(s'.accepted, m.client) == Of(s.accepted, m.client) + [m]
  {
    assert Handle(s, socket, m).accepted[..|s.accepted|] == s.accepted;
  }

  /** These messages are the client's, numbered from `first` on. */
  predicate Continues(ms: seq<Message>, client: nat, first: nat) {
    forall i :: 0 <= i < |ms| ==> ms[i].client == client && ms[i].sequence == first + i
  }

  lemma {:induction false} OwnSocket(s: Server, socket: nat, records: seq<Bytes>, layout: Layout, client: nat)
    requires Unclaimed(s, client, socket) && Continues(Parsed(layout, records), client, Expected(s, client))
    ensures var s' := HandleAll(s, socket, records, layout);
      && Unclaimed(s', client, socket) && Expected(s', client) == Expected(s, client) + |records|
      && Of(s'.accepted, client) == Of(s.accepted, client) + Parsed(layout, records)
    decreases records
  {
    hide Handle, HandleAll, Unclaimed, Expected, Of, Parsed, Continues;
    if records == [] {
      NothingParsed(s, socket, layout);
    } else {
      var prior, last := records[..|records| - 1], records[|records| - 1];
      var m := layout.parse(last);
      assert records == prior + [last];
      ParsedOneMore(layout, prior, last);
      ContinuesSplit(Parsed(layout, prior), [m], client, Expected(s, client));
      ContinuesOne(m, client, Expected(s, client) + |prior|);
      OwnSocket(s, socket, prior, layout, client);
      HandleOneMore(s, socket, prior, last, layout);
      OwnRecord(HandleAll(s, socket, prior, layout), socket, m);
      Regroup(Of(s.accepted, client), Parsed(layout, prior), [m]);
    }
  }

  lemma NothingParsed(s: Server, socket: nat, layout: Layout)
    ensures HandleAll(s, socket, [], layout) == s && Parsed(layout, []) == []
  {
  }

  lemma ParsedOneMore(layout: Layout, records: seq<Bytes>, record: Bytes)
    ensures |Parsed(layout, records)| == |records|
    ensures Parsed(layout, records + [record]) == Parsed(layout, records) + [layout.parse(record)]
  {
  }

  lemma ContinuesOne(m: Message, client: nat, first: nat)
    requires Continues([m], client, first)
    ensures m.client == client && m.sequence == first
  {
    assert [m][0] == m;
  }

  lemma Regroup(a: seq<Message>, b: seq<Message>, c: seq<Message>)
    ensures a + b + c == a + (b + c)
  {
  }

  /** Whatever arrives on other sockets: if none of them claims the client before its own socket does, what is
      accepted from the client is what its socket has carried. */
  lemma {:induction false} SocketIsHeard(layout: Layout, arrivals: seq<Arrival>, socket: nat, client: nat)
    requires layout.size > 0 && Unclaimed(Serve(layout, arrivals).0, client, socket)
    requires Continues(Parsed(layout, Received(layout.size, ChunksOf(arrivals, socket)).0), client, 1)
    ensures var (s, kept) := Serve(layout, arrivals);
      var (found, rest) := Received(layout.size, ChunksOf(arrivals, socket));
      && Of(s.accepted, client) == Parsed(layout, found) && Expected(s, client) == |found| + 1
      && (if socket in kept then kept[socket] else []) == rest
    decreases arrivals
  {
    if arrivals != [] {
      hide HandleAll, Unclaimed, Expected, Of, Records, Rest, Received, Parsed, Continues;
      var prior, a := arrivals[..|arrivals| - 1], arrivals[|arrivals| - 1];
      var (s, kept) := Serve(layout, prior);
      var chunks := ChunksOf(prior, socket);
      var (found, rest) := Received(layout.size, chunks);
      if a.socket == socket {
        var more := Records(layout.size, rest + a.chunk);
        ReceivedMore(layout.size, chunks, a.chunk);
        ContinuesOn(layout, found, more, client);
        StillUnclaimed(layout, arrivals, socket, client);
        SocketIsHeard(layout, prior, socket, client);
        OwnSocket(s, socket, more, layout, client);
      } else {
        var buffer := (if a.socket in kept then kept[a.socket] else []) + a.chunk;
        OtherSocket(s, a.socket, Records(layout.size, buffer), layout, client, socket);
        SocketIsHeard(layout, prior, socket, client);
      }
    } else {
      hide Parsed, Of, Expected;
      NothingHeard(layout, client);
    }
  }

  lemma ReceivedMore(size: nat, chunks: seq<Bytes>, chunk: Bytes)
    requires size > 0
    ensures var (found, kept) := Received(size, chunks);
      Received(size, chunks + [chunk]) == (found + Records(size, kept + chunk), Rest(size, kept + chunk))
  {
    hide Records, Rest;
    assert (chunks + [chunk])[..|chunks|] == chunks;
  }

  lemma ContinuesOn(layout: Layout, found: seq<Bytes>, more: seq<Bytes>, client: nat)
    requires Continues(Parsed(layout, found + more), client, 1)
    ensures Parsed(layout, found + more) == Parsed(layout, found) + Parsed(layout, more)
    ensures Continues(Parsed(layout, found), client, 1) && Continues(Parsed(layout, more), client, |found| + 1)
  {
    hide Continues;
    var a, b := Parsed(layout, found), Parsed(layout, more);
    assert Parsed(layout, found + more) == a + b;
    ContinuesSplit(a, b, client, 1);
  }

  lemma ContinuesSplit(a: seq<Message>, b: seq<Message>, client: nat, first: nat)
    requires Continues(a + b, client, first)
    ensures Continues(a, client, first) && Continues(b, client, first + |a|)
  {
    forall i | 0 <= i < |a| ensures a[i].client == client && a[i].sequence == first + i {
      assert (a + b)[i] == a[i];
    }
    forall i | 0 <= i < |b| ensures b[i].client == client && b[i].sequence == first + |a| + i {
      assert (a + b)[|a| + i] == b[i];
    }
  }

  lemma NothingHeard(layout: Layout, client: nat)
    ensures Of([], client) == [] == Parsed(layout, []) && Expected(Server(map[], map[], []), client) == 1
  {
  }

  lemma {:induction false} ClaimsLast(s: Server, socket: nat, records: seq<Bytes>, layout: Layout, client: nat)
    ensures client in s.sockets ==>
      var s' := HandleAll(s, socket, records, layout); client in s'.sockets && s'.sockets[client] == s.sockets[client]
    decreases records
  {
    if records != [] {
      ClaimsLast(s, socket, records[..|records| - 1], layout, client);
    }
  }

  lemma StillUnclaimed(layout: Layout, arrivals: seq<Arrival>, socket: nat, client: nat)
    requires layout.size > 0 && arrivals != [] && Unclaimed(Serve(layout, arrivals).0, client, socket)
    ensures Unclaimed(Serve(layout, arrivals[..|arrivals| - 1]).0, client, socket)
  {
    hide HandleAll, Records, Rest;
    var (s, kept) := Serve(layout, arrivals[..|arrivals| - 1]);
    var a := arrivals[|arrivals| - 1];
    var buffer := (if a.socket in kept then kept[a.socket] else []) + a.chunk;
    ClaimsLast(s, a.socket, Records(layout.size, buffer), layout, client);
  }

  /** What part of a gateway's stream has arrived is the beginning of what it sent. */
  lemma ArrivedIsPrefix(layout: Layout, encode: Message -> Bytes, ms: seq<Message>, bytes: Bytes, rest: Bytes)
    requires Agree(layout, encode, ms) && bytes + rest == Stream(ms, encode)
    ensures |Records(layout.size, bytes)| <= |ms|
    ensures Parsed(layout, Records(layout.size, bytes)) == ms[..|Records(layout.size, bytes)|]
    ensures rest == [] ==> |Records(layout.size, bytes)| == |ms|
  {
    hide Records, Rest, Stream, Encoded;
    var found := Records(layout.size, bytes);
    RecordsSplit(layout.size, bytes, rest);
    StreamRecords(layout, encode, ms);
    EncodedLength(ms, encode);
    forall i | 0 <= i < |found| ensures layout.parse(found[i]) == ms[i] {
      EncodedAt(ms, encode, i);
    }
    if rest == [] {
      assert bytes + rest == bytes;
    }
  }

  lemma {:induction false} EncodedLength(ms: seq<Message>, encode: Message -> Bytes)
    ensures |Encoded(ms, encode)| == |ms|
    decreases ms
  {
    if ms != [] {
      EncodedLength(ms[..|ms| - 1], encode);
    }
  }

  /** Among any other traffic, and however the network cuts up the streams: as long as no other socket claims
      the client first, the requests accepted from it are those its gateway sent, in order, as far as they
      have arrived. */
  lemma SentIsAccepted(
      layout: Layout, encode: Message -> Bytes, socket: nat, client: nat, payloads: seq<Bytes>,
      arrivals: seq<Arrival>, rest: Bytes)
    requires Agree(layout, encode, Sent(client, payloads))
    requires Flat(ChunksOf(arrivals, socket)) + rest == Stream(Sent(client, payloads), encode)
    requires Unclaimed(Serve(layout, arrivals).0, client, socket)
    ensures var n := |Records(layout.size, Flat(ChunksOf(arrivals, socket)))|;
      && n <= |payloads| && (rest == [] ==> n == |payloads|)
      && Of(Serve(layout, arrivals).0.accepted, client) == Sent(client, payloads)[..n]
  {
    hide Serve, Stream, Records, Rest, Flat, Received, ChunksOf, Unclaimed, Of;
    var chunks := ChunksOf(arrivals, socket);
    ChunkingIsInvisible(layout.size, chunks);
    ArrivedIsPrefix(layout, encode, Sent(client, payloads), Flat(chunks), rest);
    SocketIsHeard(layout, arrivals, socket, client);
  }
}
