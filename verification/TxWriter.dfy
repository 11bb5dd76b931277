/** The sending side of examples/tcp/tcp-large-transfer.cc: the static buffer, the byte counter and the
    send callback, against a socket whose buffer space and answers are arbitrary. */
module TxWriter {
  const TOTAL_TX_BYTES: nat := 2000000
  const WRITE_SIZE: nat := 1040

  function Letter(i: nat): char {
    (97 + i % 26) as char
  }

  /** The letters from `a` to `z`, over and over. */
  lemma {:induction false} LettersRepeat(i: nat)
    ensures Letter(0) == 'a' && Letter(i + 26) == Letter(i)
    ensures Letter(i) == 'z' <==> Letter(i + 1) == 'a'
    ensures Letter(i) != 'z' ==> Letter(i + 1) as int == Letter(i) as int + 1
  {
    assert 97 == 'a' as int && 122 == 'z' as int;
    SameRemainder(1, i);
    assert (i + 1) % 26 == if i % 26 == 25 then 0 else i % 26 + 1;
  }

  /** The first `n` bytes of the stream that is to be sent. */
  function Alphabet(n: nat): (s: seq<char>)
    ensures |s| == n && forall i :: 0 <= i < n ==> s[i] == Letter(i)
  {
    if n == 0 then [] else Alphabet(n - 1) + [Letter(n - 1)]
  }

  /** One call of `Send`: the bytes offered, the room there was for them, and the answer. */
  datatype Offer = Offer(bytes: seq<char>, room: nat, answer: int)

  class Socket {
    var accepted: seq<char>
    var txAvailable: nat
    var closed: bool
    var patience: nat
    ghost var offers: seq<Offer>

    constructor ()
      ensures accepted == [] && !closed && offers == []
    {
      accepted, closed, offers := [], false, [];
      txAvailable, patience := *, *;
    }

    /** Refuses, with a negative answer, or takes some of the bytes; it takes none at most `patience` times
        before it does something else. */
    method Send(bytes: seq<char>) returns (amount: int)
      requires bytes != []
      modifies this`accepted, this`txAvailable, this`patience, this`offers
      ensures offers == old(offers) + [Offer(bytes, old(txAvailable), amount)]
      ensures amount < 0 ==> accepted == old(accepted)
      ensures amount >= 0 ==> amount <= |bytes| && accepted == old(accepted) + bytes[..amount]
      ensures amount == 0 ==> patience < old(patience)
    {
      amount := *;
      if amount > |bytes| || (amount == 0 && patience == 0) {
        amount := |bytes|;
      }
      offers := offers + [Offer(bytes, txAvailable, amount)];
      if amount >= 0 {
        accepted := accepted + bytes[..amount];
      }
      if amount == 0 {
        patience := patience - 1;
      } else {
        patience := *;
      }
      txAvailable := *;
    }

    method Close()
      modifies this`closed
      ensures closed
    {
      closed := true;
    }
  }

  lemma {:induction false} OffsetInBuffer(total: nat, j: nat)
    ensures Letter(total % WRITE_SIZE + j) == Letter(total + j)
  {
    assert total == WRITE_SIZE * (total / WRITE_SIZE) + total % WRITE_SIZE;
    var q := total / WRITE_SIZE;
    assert total + j == 26 * (40 * q) + (total % WRITE_SIZE + j);
    SameRemainder(40 * q, total % WRITE_SIZE + j);
  }

  lemma {:induction false} SameRemainder(q: nat, r: nat)
    ensures (26 * q + r) % 26 == r % 26
    decreases q
  {
    if q > 0 {
      SameRemainder(q - 1, r + 26);
      assert (r + 26) % 26 == r % 26;
    }
  }

  lemma {:induction false} SliceFront(s: seq<char>, a: nat, n: nat, m: nat)
    requires m <= n && a + n <= |s|
    ensures s[a..a + n][..m] == s[a..a + m]
  {
  }

  /** A slice of the buffer that does not run over its end continues the stream. */
  lemma {:induction false} SliceContinues(data: seq<char>, total: nat, amount: nat)
    requires data == Alphabet(WRITE_SIZE) && total % WRITE_SIZE + amount <= WRITE_SIZE
    ensures Alphabet(total) + data[total % WRITE_SIZE..total % WRITE_SIZE + amount] == Alphabet(total + amount)
  {
    var offset := total % WRITE_SIZE;
    var sent := Alphabet(total) + data[offset..offset + amount];
    forall k | total <= k < total + amount
      ensures sent[k] == Alphabet(total + amount)[k]
    {
      OffsetInBuffer(total, k - total);
    }
  }

  /* ----- what one call of the send callback does ----- */

  /** How many bytes have been taken when the first `k` offers are through, counting from `start`. */
  ghost function TakenBy(start: nat, offers: seq<Offer>, k: nat): int
    requires k <= |offers|
  {
    if k == 0 then start
    else TakenBy(start, offers, k - 1) + if offers[k - 1].answer >= 0 then offers[k - 1].answer else 0
  }

  /** The offer continues the stream where it stands, as far as the bytes left, the room and the rest of the
      buffer allow. */
  ghost predicate RightOffer(taken: int, offer: Offer) {
    && 0 <= taken < TOTAL_TX_BYTES && offer.room > 0
    && var n := |offer.bytes|;
      && n <= TOTAL_TX_BYTES - taken && n <= offer.room && n <= WRITE_SIZE - taken % WRITE_SIZE
      && (n == TOTAL_TX_BYTES - taken || n == offer.room || n == WRITE_SIZE - taken % WRITE_SIZE)
      && Alphabet(taken) + offer.bytes == Alphabet(taken + n)
  }

  /** Each offer is right, and only the last one may have been refused. */
  ghost predicate RightOffers(start: nat, offers: seq<Offer>) {
    forall k :: 0 <= k < |offers| ==>
      RightOffer(TakenBy(start, offers, k), offers[k]) && (offers[k].answer >= 0 || k == |offers| - 1)
  }

  lemma {:induction false} TakenByFront(start: nat, offers: seq<Offer>, offer: Offer, k: nat)
    requires k <= |offers|
    ensures TakenBy(start, offers + [offer], k) == TakenBy(start, offers, k)
  {
    if k > 0 {
      TakenByFront(start, offers, offer, k - 1);
    }
  }

  /** So far every offer was right and none refused, and `taken` bytes have been taken. */
  ghost predicate Going(start: nat, offers: seq<Offer>, taken: int) {
    && RightOffers(start, offers) && TakenBy(start, offers, |offers|) == taken
    && forall k :: 0 <= k < |offers| ==> offers[k].answer >= 0
  }

  lemma {:induction false} OneMoreOffer(start: nat, offers: seq<Offer>, taken: int, offer: Offer)
    requires Going(start, offers, taken) && RightOffer(taken, offer)
    ensures if offer.answer >= 0 then Going(start, offers + [offer], taken + offer.answer)
            else RightOffers(start, offers + [offer]) && TakenBy(start, offers + [offer], |offers + [offer]|) == taken
  {
    hide RightOffer, TakenBy;
    forall k | 0 <= k <= |offers|
      ensures TakenBy(start, offers + [offer], k) == TakenBy(start, offers, k)
    {
      TakenByFront(start, offers, offer, k);
    }
    TakenByLast(start, offers + [offer]);
  }

  lemma {:induction false} TakenByLast(start: nat, offers: seq<Offer>)
    requires offers != []
    ensures var n, answer := |offers| - 1, offers[|offers| - 1].answer;
      TakenBy(start, offers, n + 1) == TakenBy(start, offers, n) + if answer >= 0 then answer else 0
  {
  }

  class Sender {
    const data: array<char>
    var currentTxBytes: nat

    /** What the receiver may count on between any two callbacks. */
    ghost predicate Valid(socket: Socket)
      reads this, data, socket
    {
      && data.Length == WRITE_SIZE && data[..] == Alphabet(WRITE_SIZE)
      && currentTxBytes <= TOTAL_TX_BYTES && socket.accepted == Alphabet(currentTxBytes)
    }

    /** Fills the buffer. */
    constructor (socket: Socket)
      requires socket.accepted == []
      ensures Valid(socket) && currentTxBytes == 0 && fresh(data)
    {
      data := new char[WRITE_SIZE];
      currentTxBytes := 0;
      new;
      for i := 0 to WRITE_SIZE
        invariant data[..i] == Alphabet(i)
        invariant currentTxBytes == 0 && fresh(data) && socket.accepted == []
      {
        data[i] := (97 + i % 26) as char;
        assert data[..i + 1] == data[..i] + [data[i]];
      }
      assert data[..] == data[..WRITE_SIZE];
    }

    /** The send callback.  Its argument is not looked at.  It goes on until the socket refuses, or closes
        the socket when nothing is left or the buffer is full. */
    method WriteUntilBufferFull(socket: Socket, txSpace: nat)
      requires Valid(socket)
      modifies this`currentTxBytes, socket
      ensures Valid(socket) && old(socket.offers) <= socket.offers
      ensures var offers := socket.offers[|old(socket.offers)|..];
        && RightOffers(old(currentTxBytes), offers)
        && currentTxBytes == TakenBy(old(currentTxBytes), offers, |offers|)
        && if offers != [] && offers[|offers| - 1].answer < 0 then socket.closed == old(socket.closed)
           else socket.closed && (currentTxBytes == TOTAL_TX_BYTES || socket.txAvailable == 0)
    {
      hide Alphabet, Letter, RightOffer, RightOffers, TakenBy, Going;
      ghost var before, offers, buffer := socket.offers, [], data[..];
      NoOffers(currentTxBytes);
      while currentTxBytes < TOTAL_TX_BYTES && socket.txAvailable > 0
        invariant data[..] == buffer && currentTxBytes <= TOTAL_TX_BYTES && socket.closed == old(socket.closed)
        invariant socket.accepted == Alphabet(currentTxBytes)
        invariant socket.offers == before + offers && Going(old(currentTxBytes), offers, currentTxBytes)
        decreases TOTAL_TX_BYTES - currentTxBytes, socket.patience
      {
        var left := TOTAL_TX_BYTES - currentTxBytes;
        var dataOffset := currentTxBytes % WRITE_SIZE;
        var toWrite := WRITE_SIZE - dataOffset;
        if left < toWrite {
          toWrite := left;
        }
        if socket.txAvailable < toWrite {
          toWrite := socket.txAvailable;
        }
        var bytes := data[dataOffset..dataOffset + toWrite];
        assert bytes == buffer[dataOffset..dataOffset + toWrite];
        ghost var room := socket.txAvailable;
        var amountSent := socket.Send(bytes);
        ghost var offer := Offer(bytes, room, amountSent);
        SliceOffered(buffer, currentTxBytes, toWrite, offer);
        OneMoreOffer(old(currentTxBytes), offers, currentTxBytes, offer);
        offers := offers + [offer];
        if amountSent < 0 {
          assert socket.offers[|before|..] == offers;
          return;
        }
        SliceAccepted(buffer, currentTxBytes, toWrite, amountSent);
        currentTxBytes := currentTxBytes + amountSent;
      }
      socket.Close();
      assert socket.offers[|before|..] == offers;
      GoneOn(old(currentTxBytes), offers, currentTxBytes);
    }
  }

  lemma {:induction false} NoOffers(start: nat)
    ensures Going(start, [], start)
  {
  }

  lemma {:induction false} GoneOn(start: nat, offers: seq<Offer>, taken: int)
    requires Going(start, offers, taken)
    ensures RightOffers(start, offers) && TakenBy(start, offers, |offers|) == taken
    ensures offers != [] ==> offers[|offers| - 1].answer >= 0
  {
    hide RightOffers;
  }

  lemma {:induction false} SliceAccepted(data: seq<char>, taken: nat, n: nat, amount: nat)
    requires data == Alphabet(WRITE_SIZE) && amount <= n && taken % WRITE_SIZE + n <= WRITE_SIZE
    ensures Alphabet(taken) + data[taken % WRITE_SIZE..taken % WRITE_SIZE + n][..amount] == Alphabet(taken + amount)
  {
    hide Alphabet, Letter;
    SliceFront(data, taken % WRITE_SIZE, n, amount);
    SliceContinues(data, taken, amount);
  }

  lemma {:induction false} SliceOffered(data: seq<char>, taken: nat, n: nat, offer: Offer)
    requires data == Alphabet(WRITE_SIZE) && taken < TOTAL_TX_BYTES && offer.room > 0
    requires n <= TOTAL_TX_BYTES - taken && n <= offer.room && n <= WRITE_SIZE - taken % WRITE_SIZE
    requires n == TOTAL_TX_BYTES - taken || n == offer.room || n == WRITE_SIZE - taken % WRITE_SIZE
    requires offer.bytes == data[taken % WRITE_SIZE..taken % WRITE_SIZE + n]
    ensures RightOffer(taken, offer)
  {
    hide Alphabet, Letter;
    SliceContinues(data, taken, n);
  }
}
