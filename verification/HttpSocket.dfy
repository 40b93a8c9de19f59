/**
  The byte-moving loops of the HTTP socket: sending a serialized request through short writes, and
  feeding a response parser from short reads through a flat buffer of bounded size.
 */
module HttpSocket {
  import opened Common

  const EOF: Code := 2
  const END_OF_STREAM: Code := 4
  const NEED_MORE: Code := 5

  const HEADER_LIMIT: nat := 0x10_0000
  const BODY_LIMIT: nat := 0xA0_0000
  const CHUNK: nat := 65536

  /** The capacity of the socket's flat buffer. */
  const CAPACITY: nat := BODY_LIMIT + HEADER_LIMIT

  // ------------------------------------------------------------------------------------------
  // send_request

  /**
    One `next` of the serializer: it fails by itself, or offers some of the bytes still to be sent and
    the stream takes `count` of them, possibly reporting an error as well.
   */
  datatype Turn = Fails(error: Code) | Offers(offered: nat, count: nat, error: Code) {
    /** A successful write takes at least one byte. */
    ghost predicate Valid(left: nat) {
      match this
      case Fails(error) => error != 0
      case Offers(offered, count, error) => count <= offered <= left && (count == 0 ==> error != 0)
    }
  }

  /** Each turn is the one the stream offers for what is left, and moves on by the bytes it took. */
  ghost predicate Trail(size: nat, turn: (nat, nat) -> Turn, met: seq<Turn>, at: seq<nat>) {
    && |at| == |met| + 1 && at[0] == 0
    && (forall i :: 0 <= i < |met| ==> at[i] < size && met[i] == turn(i, size - at[i]))
    && (forall i :: 0 <= i < |met| ==> at[i + 1] == at[i] + if met[i].Offers? then met[i].count else 0)
  }

  lemma TrailNext(size: nat, turn: (nat, nat) -> Turn, met: seq<Turn>, at: seq<nat>, t: Turn)
    requires Trail(size, turn, met, at) && at[|met|] < size && t == turn(|met|, size - at[|met|])
    ensures Trail(size, turn, met + [t], at + [at[|met|] + if t.Offers? then t.count else 0])
  {
  }

  lemma TrailFacts(size: nat, turn: (nat, nat) -> Turn, met: seq<Turn>, at: seq<nat>)
    requires Trail(size, turn, met, at)
    ensures |at| == |met| + 1 && at[0] == 0
    ensures forall i :: 0 <= i < |met| ==> at[i] < size && met[i] == turn(i, size - at[i])
    ensures forall i :: 0 <= i < |met| ==> at[i + 1] == at[i] + if met[i].Offers? then met[i].count else 0
  {
  }

  lemma TrailStarts(size: nat, turn: (nat, nat) -> Turn)
    ensures Trail(size, turn, [], [0])
  {
  }

  /**
    Whatever is written at a time, the wire carries exactly the consumed prefix of the message, no byte
    repeated or skipped, and all of it when no error is reported. `turn(i, left)` is what turn `i` meets
    with `left` bytes to go; only the last turn can report an error. `at[i]` is how far the message was
    consumed before turn `i`.
   */
  method SendRequest(message: seq<byte>, turn: (nat, nat) -> Turn)
    returns (wire: seq<byte>, ec: Code, met: seq<Turn>, at: seq<nat>)
    requires forall i: nat, left: nat :: 0 < left ==> turn(i, left).Valid(left)
    ensures |at| == |met| + 1 && at[0] == 0
    ensures forall i :: 0 <= i < |met| ==> at[i] < |message| && met[i] == turn(i, |message| - at[i])
    ensures forall i :: 0 <= i < |met| ==> at[i + 1] == at[i] + if met[i].Offers? then met[i].count else 0
    ensures at[|met|] <= |message| && wire == message[..at[|met|]]
    ensures ec == 0 ==> wire == message
    ensures ec == if met == [] then 0 else met[|met| - 1].error
    ensures forall i :: 0 <= i < |met| - 1 ==> met[i].error == 0
    ensures |met| <= |message|
  {
    hide Trail;
    wire, ec, met, at := [], 0, [], [0];
    TrailStarts(|message|, turn);
    var consumed := 0;
    while consumed < |message|
      invariant |at| == |met| + 1 && at[|met|] == consumed <= |message| && Trail(|message|, turn, met, at)
      invariant wire == message[..consumed] && ec == 0
      invariant forall i :: 0 <= i < |met| ==> met[i].error == 0
      invariant |met| <= consumed
      decreases |message| - consumed
    {
      var t := turn(|met|, |message| - consumed);
      TrailNext(|message|, turn, met, at, t);
      var n := 0;
      if t.Offers? {
        n := t.count;
        wire := wire + message[consumed..consumed + n];
      }
      ec := t.error;
      if n != 0 {
        consumed := consumed + n;
      }
      met, at := met + [t], at + [consumed];
      if ec != 0 {
        break;
      }
    }
    TrailFacts(|message|, turn, met, at);
  }

  // ------------------------------------------------------------------------------------------
  // recv_response

  /** `min(65536, max_size - size - 1)` in unsigned arithmetic. */
  function ReadSize(max: nat, size: nat): nat {
    var room := Wrap(max - size - 1);
    if room < CHUNK then room else CHUNK
  }

  /** `prepare` throws when the buffer would outgrow its capacity. */
  predicate Overflows(max: nat, size: nat) {
    size + ReadSize(max, size) > max
  }

  /**
    The subtraction wraps exactly over a full buffer, which is also exactly when the read is refused as
    an overflow; a full chunk is read iff it leaves a byte free; one byte short of full, a read asks for
    nothing.
   */
  lemma ReadSizeIsExact(max: nat, size: nat)
    requires size <= max < WORD
    ensures Wrap(max - size - 1) != max - size - 1 <==> size == max
    ensures Overflows(max, size) <==> size == max
    ensures !Overflows(max, size) && ReadSize(max, size) == CHUNK <==> size + CHUNK < max
    ensures ReadSize(max, size) == 0 <==> size == max - 1
    ensures size < max ==> ReadSize(max, size) == if size + 65536 < max then 65536 else max - size - 1
    ensures size < max ==> size + ReadSize(max, size) < max
  {
  }

  /** The bytes one `read_some` stored, and its error code. */
  datatype Arrival = Arrival(bytes: seq<byte>, error: Code)

  /** The outcome of giving the parser all buffered bytes: how many it took, and what it says. */
  datatype Parse = Parse(taken: nat, complete: bool, error: Code) {
    ghost predicate Valid(offered: nat) {
      taken <= offered && (complete ==> error == 0)
    }
  }

  /** The stream and the parser behind one call, turn by turn. */
  datatype Peer = Peer(read: (nat, nat) -> Arrival, put: (nat, seq<byte>) -> Parse, putEof: Code) {
    ghost predicate Valid() {
      && (forall i: nat, size: nat :: |read(i, size).bytes| <= size)
      && (forall i: nat, data: seq<byte> :: put(i, data).Valid(|data|))
    }

    /** The parser never leaves more than the header limit unread. */
    ghost predicate Keeps() {
      forall i: nat, data: seq<byte> :: |data| - put(i, data).taken <= HEADER_LIMIT
    }
  }

  /** The bytes of the reads that reported no error, in order. */
  function Accepted(met: seq<Arrival>): seq<byte> {
    if met == [] then []
    else
      var n := |met| - 1;
      Accepted(met[..n]) + if met[n].error == 0 then met[n].bytes else []
  }

  /** How a call stands after a number of turns. */
  datatype Status = Reading | Complete | Overflowed | Stopped(error: Code)

  /**
    How the last read's error code decides the call. Without an error the verdict of the parser, given all
    that was buffered, decides. Any error ends the call; at the end of the stream the parser decides if it
    has been given any byte, otherwise the call reports the end of the stream.
   */
  ghost predicate StatusFits(status: Status, last: Code, gotSome: bool, peer: Peer, verdict: Parse) {
    if last == 0 then
      status == if verdict.error !in {0, NEED_MORE} then Stopped(verdict.error)
                else if verdict.complete then Complete else Reading
    else if last != EOF then status == Stopped(last)
    else if !gotSome then status == Stopped(END_OF_STREAM)
    else status == if peer.putEof == 0 then Complete else Stopped(peer.putEof)
  }

  /** What the parser was given in one turn, and what it made of it. */
  datatype Meal = Meal(data: seq<byte>, parse: Parse) {
    ghost predicate Valid() {
      parse.taken <= |data|
    }
  }

  /** The bytes left in the buffer before meal `i`. */
  ghost function Rest(buffered: seq<byte>, meals: seq<Meal>, i: nat): seq<byte>
    requires i <= |meals| && (0 < i ==> meals[i - 1].Valid())
  {
    if i == 0 then buffered else meals[i - 1].data[meals[i - 1].parse.taken..]
  }

  /** How many bytes the parser has taken. */
  ghost function Eaten(meals: seq<Meal>): nat {
    if meals == [] then 0 else var n := |meals| - 1; Eaten(meals[..n]) + meals[n].parse.taken
  }

  /** Meal `i` is all that was buffered then, and the verdict is the parser's. */
  ghost predicate MealAt(buffered: seq<byte>, peer: Peer, met: seq<Arrival>, meals: seq<Meal>, i: nat)
    requires i < |meals| <= |met|
  {
    && meals[i].Valid() && (0 < i ==> meals[i - 1].Valid())
    && meals[i].parse == peer.put(i, meals[i].data)
    && meals[i].data == Rest(buffered, meals, i) + met[i].bytes
  }

  /** The parser has been given a byte, before the call or by its reads so far. */
  ghost predicate GotSome(started: bool, buffered: seq<byte>, met: seq<Arrival>) {
    started || (met != [] && buffered + Accepted(met) != [])
  }

  /** The parser cannot fill the buffer: it leaves at most a header's worth of bytes unread. */
  ghost predicate Bounded(max: nat, buffered: seq<byte>, peer: Peer) {
    max == CAPACITY && |buffered| <= HEADER_LIMIT && peer.Keeps()
  }

  /** The parser needs more and takes nothing of what it is given. */
  ghost predicate TakesNothing(p: Parse) {
    p.taken == 0 && !p.complete && p.error in {0, NEED_MORE}
  }

  /** One byte short of full, with a parser that needs more and takes nothing: no read asks for a byte. */
  ghost predicate Starved(max: nat, buffered: seq<byte>, peer: Peer) {
    && |buffered| + 1 == max
    && (forall i: nat :: peer.read(i, 0).error == 0)
    && (forall i: nat :: TakesNothing(peer.put(i, buffered)))
  }

  lemma BytesStayInOrder(
    buffered: seq<byte>, read: seq<byte>, taken: seq<byte>, buffer: seq<byte>, bytes: seq<byte>, k: nat)
    requires buffered + read == taken + buffer && k <= |buffer + bytes|
    ensures buffered + (read + bytes) == taken + (buffer + bytes)[..k] + (buffer + bytes)[k..]
  {
    assert buffered + (read + bytes) == buffered + read + bytes == taken + (buffer + bytes);
  }

  lemma AcceptedExtends(met: seq<Arrival>, arrival: Arrival)
    ensures Accepted(met + [arrival]) == Accepted(met) + if arrival.error == 0 then arrival.bytes else []
  {
  }

  /** One read; at the end of the stream the parser decides whether the response is complete. */
  method ReadOnce(peer: Peer, i: nat, size: nat, gotSome: bool) returns (arrival: Arrival, ec: Code)
    requires peer.Valid()
    ensures arrival == peer.read(i, size)
    ensures ec == if arrival.error != EOF then arrival.error else if gotSome then peer.putEof else END_OF_STREAM
  {
    arrival := peer.read(i, size);
    ec := arrival.error;
    if ec == EOF {
      if gotSome {
        ec := peer.putEof;
      } else {
        ec := END_OF_STREAM;
      }
    }
  }

  /** Commit freshly read bytes and give the parser all that is buffered; `accepted` was read before. */
  method Feed(peer: Peer, i: nat, ghost buffered: seq<byte>, ghost accepted: seq<byte>,
              taken: seq<byte>, buffer: seq<byte>, bytes: seq<byte>)
    returns (p: Parse, taken': seq<byte>, buffer': seq<byte>)
    requires peer.Valid() && buffered + accepted == taken + buffer
    ensures p == peer.put(i, buffer + bytes)
    ensures buffered + (accepted + bytes) == taken' + buffer'
    ensures |buffer'| <= |buffer| + |bytes| && (peer.Keeps() ==> |buffer'| <= HEADER_LIMIT)
    ensures p.taken <= |buffer + bytes|
    ensures taken' == taken + (buffer + bytes)[..p.taken] && buffer' == (buffer + bytes)[p.taken..]
  {
    var readable := buffer + bytes;
    p := peer.put(i, readable);
    BytesStayInOrder(buffered, accepted, taken, buffer, bytes, p.taken);
    taken', buffer' := taken + readable[..p.taken], readable[p.taken..];
  }

  /** One turn of the loop: read, and unless that ended the call, feed the parser. */
  method TakeTurn(peer: Peer, i: nat, size: nat, gotSome: bool, ghost buffered: seq<byte>,
                  ghost accepted: seq<byte>, taken: seq<byte>, buffer: seq<byte>)
    returns (arrival: Arrival, status: Status, gotSome': bool, taken': seq<byte>, buffer': seq<byte>,
             meal: Option<Meal>)
    requires peer.Valid() && buffered + accepted == taken + buffer
    ensures arrival == peer.read(i, size)
    ensures meal.Some? <==> arrival.error == 0
    ensures meal.Some? ==>
      && meal.value == Meal(buffer + arrival.bytes, peer.put(i, buffer + arrival.bytes)) && meal.value.Valid()
      && taken' == taken + meal.value.data[..meal.value.parse.taken]
      && buffer' == meal.value.data[meal.value.parse.taken..]
    ensures meal.None? ==> taken' == taken && buffer' == buffer
    ensures StatusFits(status, arrival.error, gotSome, peer, peer.put(i, buffer + arrival.bytes))
    ensures !status.Overflowed?
    ensures gotSome' == (gotSome || (arrival.error == 0 && buffer + arrival.bytes != []))
    ensures status.Reading? ==> arrival.error == 0
    ensures buffered + (accepted + if arrival.error == 0 then arrival.bytes else []) == taken' + buffer'
    ensures |buffer'| <= |buffer| + size
    ensures peer.Keeps() && |buffer| <= HEADER_LIMIT ==> |buffer'| <= HEADER_LIMIT
    ensures arrival == Arrival([], 0) && TakesNothing(peer.put(i, buffer + [])) ==>
      status.Reading? && buffer' == buffer
  {
    hide Peer.Keeps;
    var ec;
    arrival, ec := ReadOnce(peer, i, size, gotSome);
    status, gotSome', taken', buffer', meal := Reading, gotSome, taken, buffer, None;
    if arrival.error == EOF && ec == 0 {
      return arrival, Complete, gotSome, taken, buffer, None;
    }
    if ec != 0 {
      return arrival, Stopped(ec), gotSome, taken, buffer, None;
    }
    gotSome' := gotSome || buffer + arrival.bytes != [];
    var p;
    p, taken', buffer' := Feed(peer, i, buffered, accepted, taken, buffer, arrival.bytes);
    meal := Some(Meal(buffer + arrival.bytes, p));
    if p.error != 0 && p.error != NEED_MORE {
      status := Stopped(p.error);
    } else if p.complete {
      status := Complete;
    }
  }

  /** Bytes taken and bytes buffered are the bytes from before and the bytes read, in order. */
  ghost predicate InOrder(buffered: seq<byte>, met: seq<Arrival>, taken: seq<byte>, buffer: seq<byte>) {
    buffered + Accepted(met) == taken + buffer && (met == [] ==> taken == [] && buffer == buffered)
  }

  /** Every error-free read was followed by a meal: all that was buffered then, none of it left out. */
  ghost predicate Fed(buffered: seq<byte>, peer: Peer, met: seq<Arrival>, meals: seq<Meal>,
                      taken: seq<byte>, buffer: seq<byte>)
  {
    && |meals| == |met| - (if met != [] && met[|met| - 1].error != 0 then 1 else 0)
    && (forall i :: 0 <= i < |meals| ==> MealAt(buffered, peer, met, meals, i))
    && (meals != [] ==> meals[|meals| - 1].Valid())
    && buffer == Rest(buffered, meals, |meals|)
    && |taken| == Eaten(meals)
  }

  lemma FedMore(buffered: seq<byte>, peer: Peer, met: seq<Arrival>, meals: seq<Meal>, taken: seq<byte>,
                buffer: seq<byte>, arrival: Arrival, m: Meal)
    requires Fed(buffered, peer, met, meals, taken, buffer) && |meals| == |met| && arrival.error == 0
    requires m.Valid() && m == Meal(buffer + arrival.bytes, peer.put(|met|, buffer + arrival.bytes))
    ensures Fed(buffered, peer, met + [arrival], meals + [m],
                taken + m.data[..m.parse.taken], m.data[m.parse.taken..])
  {
    var more, met' := meals + [m], met + [arrival];
    assert more[..|meals|] == meals;
    forall i | 0 <= i < |more|
      ensures MealAt(buffered, peer, met', more, i)
    {
      if i < |meals| {
        assert MealAt(buffered, peer, met, meals, i);
      }
    }
  }

  lemma FedNoMore(buffered: seq<byte>, peer: Peer, met: seq<Arrival>, meals: seq<Meal>, taken: seq<byte>,
                  buffer: seq<byte>, arrival: Arrival)
    requires Fed(buffered, peer, met, meals, taken, buffer) && |meals| == |met| && arrival.error != 0
    ensures Fed(buffered, peer, met + [arrival], meals, taken, buffer)
  {
    forall i | 0 <= i < |meals|
      ensures MealAt(buffered, peer, met + [arrival], meals, i)
    {
      assert MealAt(buffered, peer, met, meals, i);
    }
  }

  /** The same, meal by meal. */
  lemma FedFacts(buffered: seq<byte>, peer: Peer, met: seq<Arrival>, meals: seq<Meal>, taken: seq<byte>,
                 buffer: seq<byte>)
    requires Fed(buffered, peer, met, meals, taken, buffer)
    ensures |meals| == |met| - (if met != [] && met[|met| - 1].error != 0 then 1 else 0)
    ensures forall i :: 0 <= i < |meals| ==>
      meals[i].parse.taken <= |meals[i].data| && meals[i].parse == peer.put(i, meals[i].data)
    ensures meals != [] ==> meals[0].data == buffered + met[0].bytes
    ensures forall i :: 0 < i < |meals| ==>
      meals[i].data == meals[i - 1].data[meals[i - 1].parse.taken..] + met[i].bytes
    ensures buffer == if meals == [] then buffered else meals[|meals| - 1].data[meals[|meals| - 1].parse.taken..]
    ensures |taken| == Eaten(meals)
  {
    hide Eaten;
    forall i | 0 <= i < |meals|
      ensures meals[i].Valid() && meals[i].parse == peer.put(i, meals[i].data)
    {
      assert MealAt(buffered, peer, met, meals, i);
    }
    forall i | 0 < i < |meals|
      ensures meals[i].data == meals[i - 1].data[meals[i - 1].parse.taken..] + met[i].bytes
    {
      assert meals[i - 1].Valid() && MealAt(buffered, peer, met, meals, i);
    }
    assert meals != [] ==> MealAt(buffered, peer, met, meals, 0);
  }

  /** The verdict of the last meal. */
  ghost function LastVerdict(meals: seq<Meal>): Parse {
    if meals == [] then Parse(0, false, 0) else meals[|meals| - 1].parse
  }

  /** The parser wants more. */
  ghost predicate GoesOn(p: Parse) {
    !p.complete && (p.error == 0 || p.error == NEED_MORE)
  }

  /** Every read is one of the peer's, and only the last can have failed, deciding the status. */
  ghost predicate ReadsMet(started: bool, buffered: seq<byte>, peer: Peer, status: Status, met: seq<Arrival>,
                           meals: seq<Meal>, asked: seq<nat>)
  {
    && |met| == |asked|
    && (forall i :: 0 <= i < |met| ==> met[i] == peer.read(i, asked[i]))
    && (forall i :: 0 <= i < |met| - 1 ==> met[i].error == 0)
    && |met| - 1 <= |meals| && (forall i :: 0 <= i < |met| - 1 ==> GoesOn(meals[i].parse))
    && (met == [] ==> status.Reading?)
    && (met != [] ==>
          var n := |met| - 1;
          && (status.Reading? ==> met[n].error == 0)
          && StatusFits(status, met[n].error, GotSome(started, buffered, met[..n]), peer, LastVerdict(meals)))
  }

  /** How large the buffer is and what was asked for, in a call that has not overflowed. */
  ghost predicate Sized(
    max: nat, buffered: seq<byte>, peer: Peer, status: Status, buffer: seq<byte>, asked: seq<nat>)
  {
    && |buffer| <= max && !status.Overflowed?
    && (|buffered| == max ==> asked == [] && |buffer| == max && status.Reading?)
    && (|buffered| < max ==> |buffer| < max)
    && (Bounded(max, buffered, peer) ==>
          (forall i :: 0 <= i < |asked| ==> asked[i] == CHUNK) && |buffer| <= HEADER_LIMIT)
    && (Starved(max, buffered, peer) ==>
          status.Reading? && (forall i :: 0 <= i < |asked| ==> asked[i] == 0) && buffer == buffered)
  }

  lemma InOrderFacts(buffered: seq<byte>, met: seq<Arrival>, taken: seq<byte>, buffer: seq<byte>)
    requires InOrder(buffered, met, taken, buffer)
    ensures buffered + Accepted(met) == taken + buffer
  {
  }

  /** The parser is given all that is buffered, so it has got some byte exactly if there was one. */
  lemma InOrderNext(started: bool, buffered: seq<byte>, met: seq<Arrival>, taken: seq<byte>, buffer: seq<byte>,
                    arrival: Arrival, taken': seq<byte>, buffer': seq<byte>)
    requires InOrder(buffered, met, taken, buffer)
    requires buffered + (Accepted(met) + if arrival.error == 0 then arrival.bytes else []) == taken' + buffer'
    ensures InOrder(buffered, met + [arrival], taken', buffer')
    ensures arrival.error == 0 ==>
      GotSome(started, buffered, met + [arrival])
      == (GotSome(started, buffered, met) || buffer + arrival.bytes != [])
  {
    AcceptedExtends(met, arrival);
  }

  /** The verdict that decided the turn is the last one, if there was one. */
  lemma VerdictNext(
    meals: seq<Meal>, meal: Option<Meal>, last: Code, verdict: Parse, gotSome: bool, peer: Peer, status: Status)
    requires StatusFits(status, last, gotSome, peer, verdict)
    requires (meal.Some? <==> last == 0) && (meal.Some? ==> meal.value.parse == verdict)
    ensures StatusFits(status, last, gotSome, peer, LastVerdict(if meal.Some? then meals + [meal.value] else meals))
  {
  }

  lemma ReadsNext(started: bool, buffered: seq<byte>, peer: Peer, met: seq<Arrival>, meals: seq<Meal>,
                  asked: seq<nat>, size: nat, arrival: Arrival, status: Status, meals': seq<Meal>)
    requires ReadsMet(started, buffered, peer, Reading, met, meals, asked)
    requires arrival == peer.read(|asked|, size) && (status.Reading? ==> arrival.error == 0)
    requires StatusFits(status, arrival.error, GotSome(started, buffered, met), peer, LastVerdict(meals'))
    requires |meals| == |met| && meals <= meals'
    ensures ReadsMet(started, buffered, peer, status, met + [arrival], meals', asked + [size])
  {
    if met != [] {
      StillReading(met[|met| - 1].error, GotSome(started, buffered, met[..|met| - 1]), peer, meals);
    }
    hide StatusFits, GotSome, GoesOn;
    assert (met + [arrival])[..|met|] == met;
  }

  lemma StillReading(last: Code, gotSome: bool, peer: Peer, meals: seq<Meal>)
    requires StatusFits(Reading, last, gotSome, peer, LastVerdict(meals)) && last == 0 && meals != []
    ensures GoesOn(meals[|meals| - 1].parse)
  {
  }

  /** The same, spelled out. */
  lemma ReadsFacts(started: bool, buffered: seq<byte>, peer: Peer, status: Status, met: seq<Arrival>,
                   meals: seq<Meal>, asked: seq<nat>)
    requires ReadsMet(started, buffered, peer, status, met, meals, asked)
    requires |meals| == |met| - (if met != [] && met[|met| - 1].error != 0 then 1 else 0)
    ensures |met| == |asked| && forall i :: 0 <= i < |met| ==> met[i] == peer.read(i, asked[i])
    ensures forall i :: 0 <= i < |met| - 1 ==> met[i].error == 0
    ensures met == [] ==> status.Reading?
    ensures forall i :: 0 <= i < |met| - 1 ==>
      !meals[i].parse.complete && (meals[i].parse.error == 0 || meals[i].parse.error == NEED_MORE)
    ensures met != [] && met[|met| - 1].error == 0 ==>
      var p := meals[|met| - 1].parse;
      && (forall e :: status == Stopped(e) <==> e == p.error && e != 0 && e != NEED_MORE)
      && (status.Complete? <==> p.complete && (p.error == 0 || p.error == NEED_MORE))
    ensures met != [] && met[|met| - 1].error != 0 ==>
      var n := |met| - 1;
      status == if met[n].error != EOF then Stopped(met[n].error)
                else if !started && (n == 0 || buffered + Accepted(met[..n]) == []) then Stopped(END_OF_STREAM)
                else if peer.putEof == 0 then Complete else Stopped(peer.putEof)
  {
    hide Accepted;
  }

  /** Nothing has happened yet. */
  lemma AtFirst(max: nat, buffered: seq<byte>, started: bool, peer: Peer)
    requires |buffered| <= max
    ensures InOrder(buffered, [], [], buffered) && Fed(buffered, peer, [], [], [], buffered)
    ensures ReadsMet(started, buffered, peer, Reading, [], [], []) && Sized(max, buffered, peer, Reading, buffered, [])
    ensures GotSome(started, buffered, []) == started && AskedFor(max, buffered, [], [])
  {
  }

  /** The sizes of a call that has not overflowed, spelled out. */
  lemma SizedResults(
    max: nat, buffered: seq<byte>, peer: Peer, status: Status, buffer: seq<byte>, asked: seq<nat>)
    requires Sized(max, buffered, peer, status, buffer, asked)
    ensures |buffer| <= max && !status.Overflowed? && (|buffered| < max ==> |buffer| < max)
    ensures |buffered| == max ==> asked == [] && status.Reading?
    ensures Bounded(max, buffered, peer) ==>
      (forall i :: 0 <= i < |asked| ==> asked[i] == 65536) && |buffer| <= HEADER_LIMIT
    ensures Starved(max, buffered, peer) ==>
      status.Reading? && (forall i :: 0 <= i < |asked| ==> asked[i] == 0) && buffer == buffered
  {
  }

  lemma SizedFacts(max: nat, buffered: seq<byte>, peer: Peer, i: nat, buffer: seq<byte>, asked: seq<nat>)
    requires Sized(max, buffered, peer, Reading, buffer, asked) && peer.Valid() && max < WORD
    ensures |buffer| <= max
    ensures Starved(max, buffered, peer) ==>
      peer.read(i, ReadSize(max, |buffer|)) == Arrival([], 0) && TakesNothing(peer.put(i, buffer + []))
  {
    if Starved(max, buffered, peer) {
      assert |peer.read(i, 0).bytes| <= 0;
      assert buffer + [] == buffered;
    }
  }

  /** An overflow happens only over a buffer that was full from the start, before any read. */
  lemma OverflowFacts(max: nat, buffered: seq<byte>, peer: Peer, buffer: seq<byte>, asked: seq<nat>)
    requires Sized(max, buffered, peer, Reading, buffer, asked) && |buffered| <= max < WORD
    requires Overflows(max, |buffer|)
    ensures |buffered| == max && asked == []
    ensures !Bounded(max, buffered, peer) && !Starved(max, buffered, peer)
  {
    ReadSizeIsExact(max, |buffer|);
  }

  /** A turn keeps the sizes; in a starved one nothing arrives and nothing is taken. */
  lemma SizedNext(max: nat, buffered: seq<byte>, peer: Peer, buffer: seq<byte>, asked: seq<nat>,
                  status: Status, buffer': seq<byte>)
    requires Sized(max, buffered, peer, Reading, buffer, asked) && |buffered| <= max < WORD
    requires !Overflows(max, |buffer|) && !status.Overflowed? && |buffer'| <= |buffer| + ReadSize(max, |buffer|)
    requires peer.Keeps() && |buffer| <= HEADER_LIMIT ==> |buffer'| <= HEADER_LIMIT
    requires Starved(max, buffered, peer) ==> status.Reading? && buffer' == buffer
    ensures Sized(max, buffered, peer, status, buffer', asked + [ReadSize(max, |buffer|)])
  {
    ReadSizeIsExact(max, |buffer|);
  }

  /** Every read asks for what the buffer, as it was then, has room for. */
  ghost predicate AskedFor(max: nat, buffered: seq<byte>, meals: seq<Meal>, asked: seq<nat>) {
    && |asked| - 1 <= |meals|
    && (forall i :: 0 <= i < |meals| ==> meals[i].Valid())
    && (forall i :: 0 <= i < |asked| ==> asked[i] == ReadSize(max,
          if i == 0 then |buffered| else |meals[i - 1].data| - meals[i - 1].parse.taken))
  }

  lemma AskedNext(max: nat, buffered: seq<byte>, meals: seq<Meal>, asked: seq<nat>, buffer: seq<byte>,
                  meal: Option<Meal>)
    requires AskedFor(max, buffered, meals, asked) && |asked| == |meals| && (meal.Some? ==> meal.value.Valid())
    requires buffer == Rest(buffered, meals, |meals|)
    ensures AskedFor(max, buffered, if meal.Some? then meals + [meal.value] else meals,
                     asked + [ReadSize(max, |buffer|)])
  {
    hide ReadSize;
  }

  lemma FedRest(buffered: seq<byte>, peer: Peer, met: seq<Arrival>, meals: seq<Meal>, taken: seq<byte>,
                buffer: seq<byte>)
    requires Fed(buffered, peer, met, meals, taken, buffer)
    ensures (meals != [] ==> meals[|meals| - 1].Valid()) && buffer == Rest(buffered, meals, |meals|)
  {
  }

  /** The turns of the loop, until the call is decided or `turns` of them have been taken. */
  method TakeTurns(max: nat, buffered: seq<byte>, started: bool, peer: Peer, turns: nat)
    returns (status: Status, taken: seq<byte>, buffer: seq<byte>, met: seq<Arrival>, meals: seq<Meal>,
             asked: seq<nat>, overflowed: bool)
    requires |buffered| <= max < WORD && peer.Valid()
    ensures |met| == |asked| <= turns && (status.Reading? && !overflowed ==> |asked| == turns)
    ensures InOrder(buffered, met, taken, buffer) && Fed(buffered, peer, met, meals, taken, buffer)
    ensures ReadsMet(started, buffered, peer, status, met, meals, asked)
    ensures Sized(max, buffered, peer, status, buffer, asked) && AskedFor(max, buffered, meals, asked)
    ensures overflowed ==> status.Reading? && |buffered| == max && met == [] && 0 < turns
    ensures overflowed ==> !Bounded(max, buffered, peer) && !Starved(max, buffered, peer)
    ensures !overflowed && |buffered| == max ==> turns == 0
  {
    status, taken, buffer, met, meals, asked, overflowed := Reading, [], buffered, [], [], [], false;
    hide GotSome, Accepted, ReadSize, Overflows, Peer.Valid, Peer.Keeps, StatusFits, LastVerdict;
    hide InOrder, ReadsMet, Sized, Starved, TakesNothing, Bounded, Fed, AskedFor, Rest;
    AtFirst(max, buffered, started, peer);
    var gotSome := started;
    while |asked| < turns && status.Reading?
      invariant |met| == |asked| <= turns
      invariant InOrder(buffered, met, taken, buffer)
      invariant Fed(buffered, peer, met, meals, taken, buffer)
      invariant ReadsMet(started, buffered, peer, status, met, meals, asked)
      invariant status.Reading? ==> |meals| == |met|
      invariant status.Reading? ==> gotSome == GotSome(started, buffered, met)
      invariant Sized(max, buffered, peer, status, buffer, asked)
      invariant AskedFor(max, buffered, meals, asked)
      decreases turns - |asked|, status.Reading?
    {
      SizedFacts(max, buffered, peer, |asked|, buffer, asked);
      var size := ReadSize(max, |buffer|);
      if Overflows(max, |buffer|) {
        OverflowFacts(max, buffered, peer, buffer, asked);
        return status, taken, buffer, met, meals, asked, true;
      }
      InOrderFacts(buffered, met, taken, buffer);
      var arrival, status', gotSome', taken', buffer', meal :=
        TakeTurn(peer, |asked|, size, gotSome, buffered, Accepted(met), taken, buffer);
      InOrderNext(started, buffered, met, taken, buffer, arrival, taken', buffer');
      var meals' := if meal.Some? then meals + [meal.value] else meals;
      VerdictNext(meals, meal, arrival.error, peer.put(|asked|, buffer + arrival.bytes), gotSome, peer, status');
      ReadsNext(started, buffered, peer, met, meals, asked, size, arrival, status', meals');
      FedRest(buffered, peer, met, meals, taken, buffer);
      AskedNext(max, buffered, meals, asked, buffer, meal);
      SizedNext(max, buffered, peer, buffer, asked, status', buffer');
      if meal.Some? {
        FedMore(buffered, peer, met, meals, taken, buffer, arrival, meal.value);
      } else {
        FedNoMore(buffered, peer, met, meals, taken, buffer, arrival);
      }
      meals := meals';
      status, gotSome, taken, buffer := status', gotSome', taken', buffer';
      asked, met := asked + [size], met + [arrival];
    }
    SizedResults(max, buffered, peer, status, buffer, asked);
  }

  /**
    The loop of `recv_response`, over its first `turns` turns. Bytes the parser took followed by bytes
    still buffered are the bytes that were buffered before followed by the bytes read, in order; only
    the bytes of a read that itself reported an error, which ends the call, are dropped. As long as the
    parser leaves at most the header limit unread, every read asks for a full chunk. An overflow is
    reported exactly over a buffer that was full from the start: a read never fills it, and when it is one
    byte short and the parser takes nothing, the loop goes on forever asking for nothing.
   */
  method RecvResponse(max: nat, buffered: seq<byte>, started: bool, peer: Peer, turns: nat)
    returns (status: Status, taken: seq<byte>, buffer: seq<byte>, met: seq<Arrival>, meals: seq<Meal>,
             asked: seq<nat>)
    requires |buffered| <= max < WORD && peer.Valid()
    ensures buffered + Accepted(met) == taken + buffer && |buffer| <= max
    ensures |met| == |asked| <= turns && (status.Reading? ==> |asked| == turns)
    ensures forall i :: 0 <= i < |met| ==> met[i] == peer.read(i, asked[i])
    ensures forall i :: 0 <= i < |met| - 1 ==> met[i].error == 0
    ensures Fed(buffered, peer, met, meals, taken, buffer) && |taken| == Eaten(meals)
    ensures |meals| == |met| - (if met != [] && met[|met| - 1].error != 0 then 1 else 0)
    ensures met == [] ==> status.Reading? || status.Overflowed?
    ensures forall i :: 0 <= i < |met| - 1 ==>
      !meals[i].parse.complete && (meals[i].parse.error == 0 || meals[i].parse.error == NEED_MORE)
    ensures forall i :: 0 <= i < |meals| ==>
      meals[i].parse.taken <= |meals[i].data| && meals[i].parse == peer.put(i, meals[i].data)
    ensures meals != [] ==> meals[0].data == buffered + met[0].bytes
    ensures forall i :: 0 < i < |meals| ==>
      meals[i].data == meals[i - 1].data[meals[i - 1].parse.taken..] + met[i].bytes
    ensures buffer == if meals == [] then buffered else meals[|meals| - 1].data[meals[|meals| - 1].parse.taken..]
    ensures forall i :: 0 <= i < |met| ==> asked[i] == ReadSize(max,
      if i == 0 then |buffered| else |meals[i - 1].data| - meals[i - 1].parse.taken)
    ensures met != [] && met[|met| - 1].error == 0 ==>
      var p := meals[|met| - 1].parse;
      && (forall e :: status == Stopped(e) <==> e == p.error && e != 0 && e != NEED_MORE)
      && (status.Complete? <==> p.complete && (p.error == 0 || p.error == NEED_MORE))
    ensures met != [] && met[|met| - 1].error != 0 ==>
      var n := |met| - 1;
      status == if met[n].error != EOF then Stopped(met[n].error)
                else if !started && (n == 0 || buffered + Accepted(met[..n]) == []) then Stopped(END_OF_STREAM)
                else if peer.putEof == 0 then Complete else Stopped(peer.putEof)
    ensures status.Overflowed? <==> |buffered| == max && 0 < turns
    ensures |buffered| < max ==> |buffer| < max
    ensures Bounded(max, buffered, peer) ==>
      (forall i :: 0 <= i < |asked| ==> asked[i] == 65536) && |buffer| <= HEADER_LIMIT
    ensures Starved(max, buffered, peer) ==>
      status.Reading? && |asked| == turns && (forall i :: 0 <= i < |asked| ==> asked[i] == 0) && buffer == buffered
  {
    var overflowed;
    status, taken, buffer, met, meals, asked, overflowed := TakeTurns(max, buffered, started, peer, turns);
    hide InOrder, ReadsMet, Sized, Starved, Bounded, Fed, Eaten, ReadSize, Accepted;
    InOrderFacts(buffered, met, taken, buffer);
    FedFacts(buffered, peer, met, meals, taken, buffer);
    ReadsFacts(started, buffered, peer, status, met, meals, asked);
    SizedResults(max, buffered, peer, status, buffer, asked);
    if overflowed {
      status := Overflowed;
    }
  }

  /**
    The overload that owns its parser first empties the socket's buffer: bytes an earlier response left
    there never reach this one, and the parser sees exactly the bytes read in this call.
   */
  method RecvNext(leftover: seq<byte>, peer: Peer, turns: nat)
    returns (response: bool, taken: seq<byte>, buffer: seq<byte>, met: seq<Arrival>, meals: seq<Meal>,
             asked: seq<nat>)
    requires |leftover| <= CAPACITY && peer.Valid()
    ensures Accepted(met) == taken + buffer && |buffer| < CAPACITY
    ensures peer.Keeps() ==> |buffer| <= HEADER_LIMIT
    ensures |met| == |asked| && forall i :: 0 <= i < |met| ==> met[i] == peer.read(i, asked[i])
    ensures Fed([], peer, met, meals, taken, buffer)
    ensures met == [] ==> !response
    ensures met != [] ==>
      var n := |met| - 1;
      && (met[n].error == 0 ==> |meals| == |met|)
      && (response <==>
            if met[n].error == 0 then meals[n].parse.complete
            else met[n].error == EOF && Accepted(met[..n]) != [] && peer.putEof == 0)
  {
    buffer := leftover[|leftover|..];
    var status;
    status, taken, buffer, met, meals, asked := RecvResponse(CAPACITY, buffer, false, peer, turns);
    response := status.Complete?;
    if meals != [] {
      assert meals[|meals| - 1].parse.Valid(|meals[|meals| - 1].data|);
    }
  }
}
