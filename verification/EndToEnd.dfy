/** A whole stream: a writer, the bytes the operating system has taken and not yet delivered, and a
    receiver.  Its methods are everything that can happen to it, in any order and with any answers
    from the system. */
module EndToEnd {
  import opened Router
  import opened Wire
  import opened Transport

  class Link {
    const max: nat
    const writer: BufferedWriter
    const receiver: Receiver
    ghost var sent: seq<Message>

    ghost predicate Valid()
      reads this, writer, receiver
    {
      && writer.Valid() && receiver.Valid() && receiver.maxMessageSize == max
      && AllSendable(max, sent)
      && receiver.read <= writer.taken
      && (if writer.closed then writer.taken <= PackAll(max, sent)
          else writer.taken + Flat(writer.buf) == PackAll(max, sent) && Solid(writer.buf))
    }

    constructor (max: nat)
      ensures Valid() && sent == [] && this.max == max && fresh(writer) && fresh(receiver)
      ensures !writer.closed
    {
      this.max := max;
      writer := new BufferedWriter();
      receiver := new Receiver(max);
      sent := [];
    }

    /** `MitogenProtocol._send`. */
    method Send(m: Message, os: Write)
      requires Valid() && Packable(m) && |m.data| <= max && (os.Took? ==> os.n <= HEADER_LEN + |m.data|)
      modifies this`sent, writer
      ensures Valid() && sent == old(sent) + [m] && writer.closed == old(writer.closed)
    {
      hide Pack, PackAll, Flat, Parse;
      sent := sent + [m];
      PackAllAppend(max, old(sent), m);
      assert |Pack(m)| > 0;
      writer.Write(Pack(m), os);
    }

    /** The stream has become writeable.  It stays open as long as the system takes something. */
    method Transmit(os: Write)
      requires Valid() && (os.Took? && writer.buf != [] ==> os.n <= |writer.buf[0]|)
      modifies writer
      ensures Valid() && receiver.read == old(receiver.read)
      ensures writer.closed <==> old(writer.closed) || (old(writer.polled) && !(os.Took? && os.n > 0))
      ensures !writer.closed && old(writer.polled) ==> |Flat(writer.buf)| == |old(Flat(writer.buf))| - os.n
    {
      hide Pack, PackAll, Flat, Parse;
      FlatCons(writer.buf);
      FlatNil([]);
      ghost var was := Flat(writer.buf);
      writer.OnTransmit(os);
      if !writer.closed && old(writer.polled) { assert was == was[..os.n] + was[os.n..]; }
    }

    /** The stream has become readable: some of what is on the wire is read. */
    method Read(chunk: Bytes)
      requires Valid() && chunk != [] && receiver.read + chunk <= writer.taken
      modifies receiver
      ensures Valid() && receiver.read == old(receiver.read) + chunk
      ensures old(receiver.routed) <= receiver.routed
    {
      Intact();
      receiver.OnReceive(chunk);
    }

    /** What the receiver has read is part of an honest stream, so it is never taken for corrupt
        or over-long. */
    lemma Intact()
      requires Valid()
      ensures !receiver.disconnected
      ensures receiver.routed <= AllArrived(sent)
    {
      assert receiver.read <= PackAll(max, sent);
      ParsePrefix(max, sent, receiver.read);
    }

    /** End to end: what has been handed to the router is a prefix of what was sent, field for
        field; and it is all of it once nothing is left in the buffer or on the wire. */
    lemma Reliable()
      requires Valid()
      ensures receiver.routed <= AllArrived(sent) && !receiver.disconnected
      ensures !writer.closed && writer.len == 0 && receiver.read == writer.taken ==>
                receiver.routed == AllArrived(sent) && receiver.inputLen == 0
    {
      hide Pack, PackAll, Flat, Parse;
      Intact();
      if !writer.closed && writer.len == 0 && receiver.read == writer.taken {
        FlatEmpty(writer.buf);
        assert receiver.read == PackAll(max, sent);
        ParsePackAll(max, sent);
      }
    }

    /** The broker serves the stream for as long as it is marked writeable, and each time the system
        takes at least one byte, `offers` at most: it does so only a bounded number of times, and then
        all that was sent is on the wire. */
    method Flush(offers: seq<nat>) returns (turns: nat)
      requires Valid() && !writer.closed && (forall k | 0 <= k < |offers| :: offers[k] > 0)
      requires |Flat(writer.buf)| <= |offers|
      modifies writer
      ensures Valid() && !writer.closed && !writer.polled && turns <= old(|Flat(writer.buf)|)
      ensures writer.taken == PackAll(max, sent) && receiver.read == old(receiver.read)
    {
      hide Pack, PackAll, Flat, Parse, Receiver.Valid;
      turns := 0;
      while writer.polled
        invariant Valid() && !writer.closed && receiver.read == old(receiver.read)
        invariant turns + |Flat(writer.buf)| <= old(|Flat(writer.buf)|)
        decreases |Flat(writer.buf)|
      {
        FlatCons(writer.buf);
        SolidCons(writer.buf);
        var head := |writer.buf[0]|;
        Transmit(Took(if offers[turns] < head then offers[turns] else head));
        turns := turns + 1;
      }
      FlatNil(writer.buf);
    }

    /** The other end reads what is on the wire, cut anyhow: then everything that was sent has been routed. */
    method ReadAll(chunks: seq<Bytes>)
      requires Valid() && !writer.closed && !writer.polled
      requires Solid(chunks) && receiver.read + Flat(chunks) == writer.taken
      modifies receiver
      ensures Valid() && receiver.read == writer.taken && !receiver.disconnected
      ensures receiver.routed == AllArrived(sent) && receiver.inputLen == 0
    {
      hide Pack, PackAll, Flat, Parse, Receiver.Valid;
      assert chunks[0..] == chunks;
      for i := 0 to |chunks|
        invariant Valid() && receiver.read + Flat(chunks[i..]) == writer.taken
      {
        FlatCons(chunks[i..]);
        assert chunks[i] in chunks && chunks[i..][1..] == chunks[i + 1..];
        Read(chunks[i]);
      }
      FlatNil(chunks[|chunks|..]);
      FlatNil(writer.buf);
      Reliable();
    }
  }
}
