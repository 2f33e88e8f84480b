/** Server-sent events: the channel names, the table of open streams, and what each stream is offered over a run. */
module Sse {
  import opened Common

  // ---- channel names ----

  const PREFIX: string := "user:"
  const SUFFIX: string := ":notifications"
  const PATTERN: string := PREFIX + "*" + SUFFIX
  const SIZE_RANGE: nat := 0x1_0000_0000_0000_0000

  function Channel(user: string): string { PREFIX + user + SUFFIX }

  predicate StartsWith(s: string, p: string) { |p| <= |s| && s[..|p|] == p }

  predicate EndsWith(s: string, p: string) { |p| <= |s| && s[|s| - |p|..] == p }

  // s.substr(position, count): the count is clipped to the rest of the string.
  function Substr(s: string, position: nat, count: nat): string
    requires position <= |s|
  {
    if count <= |s| - position then s[position..position + count] else s[position..]
  }

  // What the subscription callback takes for the user id; the length is computed in size_t, which wraps below zero.
  function Decode(channel: string): Option<string> {
    if !StartsWith(channel, PREFIX) || !EndsWith(channel, SUFFIX) then None
    else Some(Substr(channel, |PREFIX|, (|channel| - |PREFIX| - |SUFFIX|) % SIZE_RANGE))
  }

  // The pattern language of PSUBSCRIBE, restricted to '*' and ordinary characters.
  predicate Glob(pattern: string, s: string)
    decreases |pattern|
  {
    if pattern == "" then s == ""
    else if pattern[0] == '*' then exists i :: 0 <= i <= |s| && Glob(pattern[1..], s[i..])
    else s != "" && s[0] == pattern[0] && Glob(pattern[1..], s[1..])
  }

  lemma {:induction false} GlobLiteral(p: string, s: string)
    requires '*' !in p
    ensures Glob(p, s) <==> s == p
    decreases |p|
  {
    if p != "" {
      assert p[0] in p;
      if s != "" {
        GlobLiteral(p[1..], s[1..]);
        assert s == [s[0]] + s[1..] && p == [p[0]] + p[1..];
      }
    }
  }

  lemma StartsWithCons(s: string, p: string)
    requires p != "" && s != ""
    ensures StartsWith(s, p) <==> s[0] == p[0] && StartsWith(s[1..], p[1..])
    ensures |p| <= |s| ==> s[1..][|p| - 1..] == s[|p|..]
  {
    if StartsWith(s, p) { assert s[1..][..|p| - 1] == s[..|p|][1..]; }
    if s[0] == p[0] && StartsWith(s[1..], p[1..]) {
      assert s[..|p|] == [s[0]] + s[1..][..|p| - 1];
      assert p == [p[0]] + p[1..];
    }
  }

  lemma {:induction false} GlobAfterLiteral(p: string, rest: string, s: string)
    requires '*' !in p
    ensures Glob(p + rest, s) <==> StartsWith(s, p) && Glob(rest, s[|p|..])
    decreases |p|
  {
    if p == "" {
      assert p + rest == rest && s[0..] == s;
    } else {
      assert p[0] in p;
      assert (p + rest)[1..] == p[1..] + rest;
      if s != "" {
        GlobAfterLiteral(p[1..], rest, s[1..]);
        StartsWithCons(s, p);
      }
    }
  }

  // A star and then a literal: the literal is at the end.
  lemma GlobStar(literal: string, s: string)
    requires '*' !in literal
    ensures Glob("*" + literal, s) <==> EndsWith(s, literal)
  {
    var pattern := "*" + literal;
    assert pattern[1..] == literal;
    forall t: string ensures Glob(literal, t) <==> t == literal { GlobLiteral(literal, t); }
    hide Glob;
    if EndsWith(s, literal) {
      assert 0 <= |s| - |literal| <= |s| && Glob(pattern[1..], s[|s| - |literal|..]);
    }
    GlobStarUnfold(pattern, s);
  }

  lemma GlobStarUnfold(pattern: string, s: string)
    requires pattern != "" && pattern[0] == '*'
    ensures Glob(pattern, s) <==> exists i :: 0 <= i <= |s| && Glob(pattern[1..], s[i..])
  {
  }

  /** The subscription pattern admits exactly the channels the notification service prints. */
  lemma PatternIsChannels(c: string)
    ensures Glob(PATTERN, c) <==> exists user :: c == Channel(user)
  {
    assert PATTERN == PREFIX + ("*" + SUFFIX);
    GlobAfterLiteral(PREFIX, "*" + SUFFIX, c);
    if StartsWith(c, PREFIX) {
      GlobStar(SUFFIX, c[|PREFIX|..]);
    }
    hide Glob;
    ChannelShape(c);
  }

  lemma ChannelShape(c: string)
    ensures (exists user :: c == Channel(user)) <==> StartsWith(c, PREFIX) && EndsWith(c[|PREFIX|..], SUFFIX)
  {
    hide EndsWith;
    if StartsWith(c, PREFIX) && EndsWith(c[|PREFIX|..], SUFFIX) {
      Unwrap(c, PREFIX, SUFFIX);
      assert c == Channel(c[|PREFIX|..][..|c| - |PREFIX| - |SUFFIX|]);
    }
    if user :| c == Channel(user) {
      Wrap(PREFIX, user, SUFFIX);
    }
  }

  lemma Unwrap(c: string, p: string, q: string)
    requires StartsWith(c, p) && EndsWith(c[|p|..], q)
    ensures |p| + |q| <= |c| && c == p + c[|p|..][..|c| - |p| - |q|] + q
  {
    var tail := c[|p|..];
    assert c == c[..|p|] + tail;
    assert tail == tail[..|tail| - |q|] + tail[|tail| - |q|..];
  }

  lemma Wrap(p: string, u: string, q: string)
    ensures StartsWith(p + u + q, p) && EndsWith((p + u + q)[|p|..], q)
  {
    var c := p + u + q;
    assert c[..|p|] == p;
    assert c[|p|..] == u + q;
    assert (u + q)[|u|..] == q;
  }

  /** The parser recovers any user id exactly from the printed channel, colons and all. */
  lemma DecodeChannel(user: string)
    requires |user| < SIZE_RANGE
    ensures Decode(Channel(user)) == Some(user)
  {
    var c := Channel(user);
    assert c[..|PREFIX|] == PREFIX;
    assert c[|c| - |SUFFIX|..] == SUFFIX;
    assert c[|PREFIX|..|PREFIX| + |user|] == user;
  }

  /** The parser undoes the printer on a channel exactly when the pattern admits the channel; the only other name its
      two checks let through is "user:notifications", where they overlap, the length wraps, and it answers
      "notifications". */
  lemma DecodeIsInverseIff(c: string)
    requires |c| < SIZE_RANGE
    ensures Decode(c).Some? && Channel(Decode(c).value) == c <==> Glob(PATTERN, c)
    ensures Decode(c).Some? && !Glob(PATTERN, c) <==> c == "user:notifications"
    ensures Decode("user:notifications") == Some("notifications")
  {
    PatternIsChannels(c);
    OverlapDecodes();
    if user :| c == Channel(user) {
      DecodeChannel(user);
      assert |c| >= 19;
    } else if Decode(c).Some? {
      if |c| >= |PREFIX| + |SUFFIX| {
        SplitChannel(c);
      } else {
        ShortChannel(c);
      }
    }
  }

  lemma SplitChannel(c: string)
    requires StartsWith(c, PREFIX) && EndsWith(c, SUFFIX) && |c| >= |PREFIX| + |SUFFIX|
    ensures c == Channel(c[|PREFIX|..|c| - |SUFFIX|])
  {
    assert c == c[..|PREFIX|] + c[|PREFIX|..|c| - |SUFFIX|] + c[|c| - |SUFFIX|..];
  }

  lemma OverlapDecodes()
    ensures Decode("user:notifications") == Some("notifications")
  {
    var c := "user:notifications";
    assert c[..5] == PREFIX && c[4..] == SUFFIX;
    assert (|c| - |PREFIX| - |SUFFIX|) % SIZE_RANGE == SIZE_RANGE - 1;
    assert c[5..] == "notifications";
  }

  // Prefix and suffix can overlap in their colon only.
  lemma ShortChannel(c: string)
    requires StartsWith(c, PREFIX) && EndsWith(c, SUFFIX) && |c| < |PREFIX| + |SUFFIX|
    ensures c == "user:notifications"
  {
    var n := |c| - |SUFFIX|;
    assert c[n] == c[n..][0] == ':';
    assert c[n] == c[..|PREFIX|][n];
    assert PREFIX[0] != ':' && PREFIX[1] != ':' && PREFIX[2] != ':' && PREFIX[3] != ':';
    assert n == 4;
    assert c == c[..4] + c[4..];
    assert c[..4] == c[..|PREFIX|][..4] == "user";
  }

  // ---- the table of streams ----

  // A stream is known by its identity.
  type Stream = int

  type Table = map<string, seq<Stream>>

  const READY: string := "event: ready\ndata: {\"status\":\"connected\"}\n\n"

  function Frame(message: string): string { "data: " + message + "\n\n" }

  // A message under way from PUBLISH to the subscriber.
  datatype Packet = Packet(channel: string, message: string)

  // Open streams per user, all that each stream has been offered so far, and the messages under way.
  datatype State = State(connections: Table, offered: map<Stream, seq<string>>, wire: seq<Packet>)

  function StreamsOf(t: Table, user: string): seq<Stream> {
    if user in t then t[user] else []
  }

  function OfferedTo(offered: map<Stream, seq<string>>, stream: Stream): seq<string> {
    if stream in offered then offered[stream] else []
  }

  function Offer(offered: map<Stream, seq<string>>, stream: Stream, frame: string): map<Stream, seq<string>> {
    offered[stream := OfferedTo(offered, stream) + [frame]]
  }

  function OfferAll(offered: map<Stream, seq<string>>, streams: seq<Stream>, frame: string): map<Stream, seq<string>>
    decreases |streams|
  {
    if streams == [] then offered
    else Offer(OfferAll(offered, streams[..|streams| - 1], frame), streams[|streams| - 1], frame)
  }

  // std::remove then erase: every copy goes, the others keep their order.
  function Without(streams: seq<Stream>, stream: Stream): (r: seq<Stream>)
    ensures stream !in r
    ensures forall x :: x != stream ==> multiset(r)[x] == multiset(streams)[x]
  {
    if streams == [] then []
    else
      assert streams == [streams[0]] + streams[1..];
      if streams[0] == stream then Without(streams[1..], stream) else [streams[0]] + Without(streams[1..], stream)
  }

  // PUBLISH is asynchronous: a message is sent, and later arrives or is lost, in any order.
  datatype Event =
    | Add(user: string, stream: Stream)
    | Remove(user: string, stream: Stream)
    | Publish(to: string, message: string)
    | Arrive(packet: nat)
    | Lose(packet: nat)

  function Added(s: State, user: string, stream: Stream): State {
    s.(connections := s.connections[user := StreamsOf(s.connections, user) + [stream]],
       offered := Offer(s.offered, stream, READY))
  }

  function Removed(s: State, user: string, stream: Stream): State {
    if user !in s.connections then s
    else
      var rest := Without(s.connections[user], stream);
      s.(connections := if rest == [] then s.connections - {user} else s.connections[user := rest])
  }

  // Redis hands a message to the callback if its channel matches; the callback decodes the channel and sends.
  function Delivered(s: State, channel: string, message: string): State {
    if !Glob(PATTERN, channel) || Decode(channel).None? then s
    else s.(offered := OfferAll(s.offered, StreamsOf(s.connections, Decode(channel).value), Frame(message)))
  }

  function Dropped<T>(xs: seq<T>, i: nat): seq<T> {
    if i < |xs| then xs[..i] + xs[i + 1..] else xs
  }

  function After(s: State, e: Event): State {
    match e
    case Add(user, stream) => Added(s, user, stream)
    case Remove(user, stream) => Removed(s, user, stream)
    case Publish(to, message) => s.(wire := s.wire + [Packet(Channel(to), message)])
    case Arrive(i) =>
      if i < |s.wire| then Delivered(s, s.wire[i].channel, s.wire[i].message).(wire := Dropped(s.wire, i)) else s
    case Lose(i) => s.(wire := Dropped(s.wire, i))
  }

  const START: State := State(map[], map[], [])

  function Run(es: seq<Event>): State
    decreases |es|
  {
    if es == [] then START else After(Run(es[..|es| - 1]), es[|es| - 1])
  }

  // ---- the same, told by the events alone ----

  // How often the stream is registered for the user: additions since the last removal.
  function Registered(es: seq<Event>, user: string, stream: Stream): nat
    decreases |es|
  {
    if es == [] then 0
    else
      var before, last := es[..|es| - 1], es[|es| - 1];
      if last == Add(user, stream) then Registered(before, user, stream) + 1
      else if last == Remove(user, stream) then 0
      else Registered(before, user, stream)
  }

  datatype Letter = Letter(to: string, message: string)

  // What has been published and has neither arrived nor been lost.
  function InFlight(es: seq<Event>): seq<Letter>
    decreases |es|
  {
    if es == [] then []
    else
      var before := InFlight(es[..|es| - 1]);
      match es[|es| - 1]
      case Publish(to, message) => before + [Letter(to, message)]
      case Arrive(i) => Dropped(before, i)
      case Lose(i) => Dropped(before, i)
      case _ => before
  }

  // What the last event of a run brings to the subscriber.
  function Arriving(es: seq<Event>): Option<Letter>
    requires es != []
  {
    var before, last := InFlight(es[..|es| - 1]), es[|es| - 1];
    if last.Arrive? && last.packet < |before| then Some(before[last.packet]) else None
  }

  // What the stream should have been offered: its greeting at each registration, and each arriving message once per
  // registration under its user at that moment.
  function Expected(es: seq<Event>, stream: Stream): seq<string>
    decreases |es|
  {
    if es == [] then []
    else
      var before, last, letter := es[..|es| - 1], es[|es| - 1], Arriving(es);
      Expected(before, stream) +
      (if last.Add? && last.stream == stream then [READY]
       else if letter.Some? then Repeat(Frame(letter.value.message), Registered(before, letter.value.to, stream))
       else [])
  }

  // ---- nothing is invented ----

  function Published(es: seq<Event>): seq<Letter>
    decreases |es|
  {
    if es == [] then []
    else
      var before, last := Published(es[..|es| - 1]), es[|es| - 1];
      if last.Publish? then before + [Letter(last.to, last.message)] else before
  }

  function Arrived(es: seq<Event>): seq<Letter>
    decreases |es|
  {
    if es == [] then []
    else Arrived(es[..|es| - 1]) + (if Arriving(es).Some? then [Arriving(es).value] else [])
  }

  function Lost(es: seq<Event>): seq<Letter>
    decreases |es|
  {
    if es == [] then []
    else
      var before, last := InFlight(es[..|es| - 1]), es[|es| - 1];
      Lost(es[..|es| - 1]) + (if last.Lose? && last.packet < |before| then [before[last.packet]] else [])
  }

  lemma DroppedMultiset<T>(xs: seq<T>, i: nat)
    requires i < |xs|
    ensures multiset(xs) == multiset(Dropped(xs, i)) + multiset{xs[i]}
    ensures i == 0 ==> xs == [xs[0]] + Dropped(xs, 0)
  {
    assert xs == xs[..i] + ([xs[i]] + xs[i + 1..]);
  }

  // What one event adds to the four accounts.
  lemma Accounts(es: seq<Event>)
    requires es != []
    ensures var before, last, flight := es[..|es| - 1], es[|es| - 1], InFlight(es[..|es| - 1]);
            var took := (last.Arrive? || last.Lose?) && last.packet < |flight|;
            && Published(es)
               == (if last.Publish? then Published(before) + [Letter(last.to, last.message)] else Published(before))
            && Arrived(es)
               == (if last.Arrive? && took then Arrived(before) + [flight[last.packet]] else Arrived(before))
            && Lost(es) == (if last.Lose? && took then Lost(before) + [flight[last.packet]] else Lost(before))
            && InFlight(es) == if last.Publish? then flight + [Letter(last.to, last.message)]
                               else if took then Dropped(flight, last.packet) else flight
  {
    assert Arrived(es[..|es| - 1]) + [] == Arrived(es[..|es| - 1]);
    assert Lost(es[..|es| - 1]) + [] == Lost(es[..|es| - 1]);
  }

  /** Over any run, what was published is, message for message, what arrived, what was lost and what is still under
      way. */
  lemma {:induction false} MessagesAccountedFor(es: seq<Event>)
    ensures multiset(Published(es)) == multiset(Arrived(es)) + multiset(Lost(es)) + multiset(InFlight(es))
    decreases |es|
  {
    if es != [] {
      var before, last := es[..|es| - 1], es[|es| - 1];
      MessagesAccountedFor(before);
      Accounts(es);
      hide Published, Arrived, Lost, InFlight, Dropped;
      if (last.Arrive? || last.Lose?) && last.packet < |InFlight(before)| {
        DroppedMultiset(InFlight(before), last.packet);
      }
    }
  }

  ghost predicate InOrder(es: seq<Event>) {
    forall i :: 0 <= i < |es| ==> !es[i].Lose? && (es[i].Arrive? ==> es[i].packet == 0)
  }

  lemma FirstMoves<T>(done: seq<T>, waiting: seq<T>)
    requires waiting != []
    ensures done + waiting == done + [waiting[0]] + Dropped(waiting, 0)
  {
  }

  lemma ArrivalStep(es: seq<Event>)
    requires es != [] && !es[|es| - 1].Lose? && (es[|es| - 1].Arrive? ==> es[|es| - 1].packet == 0)
    requires Published(es[..|es| - 1]) == Arrived(es[..|es| - 1]) + InFlight(es[..|es| - 1])
    ensures Published(es) == Arrived(es) + InFlight(es)
  {
    Accounts(es);
    hide Published, Arrived, Lost, InFlight, Dropped;
    var arrived, flight := Arrived(es[..|es| - 1]), InFlight(es[..|es| - 1]);
    match es[|es| - 1]
    case Publish(to, message) => Associative(arrived, flight, [Letter(to, message)]);
    case Arrive(_) =>
      if flight != [] {
        FirstMoves(arrived, flight);
      }
    case _ =>
  }

  /** If nothing is lost and messages arrive in order, what arrived is the first part of what was published. */
  lemma {:induction false} ArrivalInOrder(es: seq<Event>)
    requires InOrder(es)
    ensures Published(es) == Arrived(es) + InFlight(es)
    decreases |es|
  {
    if es != [] {
      ArrivalInOrder(es[..|es| - 1]);
      hide Published, Arrived, InFlight;
      ArrivalStep(es);
    }
  }

  lemma RepeatOnce(frame: string, n: nat)
    ensures Repeat(frame, n) + [frame] == Repeat(frame, n + 1) && Repeat(frame, 0) == []
  {
  }

  lemma {:induction false} OfferAllReaches(offered: map<Stream, seq<string>>, streams: seq<Stream>, frame: string,
      x: Stream)
    ensures OfferedTo(OfferAll(offered, streams, frame), x)
        == OfferedTo(offered, x) + Repeat(frame, multiset(streams)[x])
    decreases |streams|
  {
    hide Repeat;
    if streams == [] {
      RepeatOnce(frame, 0);
    } else {
      var front, last := streams[..|streams| - 1], streams[|streams| - 1];
      OfferAllReaches(offered, front, frame, x);
      assert streams == front + [last];
      assert multiset(streams)[x] == multiset(front)[x] + if last == x then 1 else 0;
      RepeatOnce(frame, multiset(front)[x]);
      Associative(OfferedTo(offered, x), Repeat(frame, multiset(front)[x]), [frame]);
    }
  }

  // The user ids of a run are shorter than the address space.
  predicate Sized(es: seq<Event>) {
    forall e :: e in es ==> e.Publish? ==> |e.to| < SIZE_RANGE
  }

  // The table never holds a user without streams.
  ghost predicate NoneEmpty(t: Table) {
    forall user :: user in t ==> t[user] != []
  }

  /** Over any run the table holds each stream as often as the events say it is registered, and never a user without
      streams. */
  lemma {:induction false} TableIsRegistrations(es: seq<Event>, user: string, stream: Stream)
    ensures multiset(StreamsOf(Run(es).connections, user))[stream] == Registered(es, user, stream)
    ensures NoneEmpty(Run(es).connections)
    decreases |es|
  {
    hide Glob, Decode, After;
    if es != [] {
      var s, last := Run(es[..|es| - 1]), es[|es| - 1];
      TableIsRegistrations(es[..|es| - 1], user, stream);
      TableStep(s, last, user, stream);
    }
  }

  lemma TableStep(s: State, e: Event, user: string, stream: Stream)
    requires NoneEmpty(s.connections)
    ensures NoneEmpty(After(s, e).connections)
    ensures multiset(StreamsOf(After(s, e).connections, user))[stream]
         == if e == Add(user, stream) then multiset(StreamsOf(s.connections, user))[stream] + 1
            else if e == Remove(user, stream) then 0
            else multiset(StreamsOf(s.connections, user))[stream]
  {
    hide Glob, Decode;
    match e
    case Remove(u, x) =>
      if u in s.connections {
        var rest := Without(s.connections[u], x);
        assert rest == [] ==> multiset(rest) == multiset{};
      }
    case _ =>
  }

  // A letter as it travels.
  function Packed(letters: seq<Letter>): (r: seq<Packet>)
    ensures |r| == |letters| && forall i :: 0 <= i < |r| ==> r[i] == Packet(Channel(letters[i].to), letters[i].message)
  {
    seq(|letters|, i requires 0 <= i < |letters| => Packet(Channel(letters[i].to), letters[i].message))
  }

  // The wire after one event.
  lemma WireStep(s: State, e: Event)
    ensures After(s, e).wire == match e
              case Publish(to, message) => s.wire + [Packet(Channel(to), message)]
              case Arrive(i) => Dropped(s.wire, i)
              case Lose(i) => Dropped(s.wire, i)
              case _ => s.wire
  {
    hide Delivered, Channel;
  }

  // The packets under way are the letters under way.
  lemma {:induction false} WireIsInFlight(es: seq<Event>)
    ensures Run(es).wire == Packed(InFlight(es))
    decreases |es|
  {
    if es != [] {
      var before := es[..|es| - 1];
      WireIsInFlight(before);
      WireStep(Run(before), es[|es| - 1]);
      RunSnoc(es);
      hide Run, After, Channel, Dropped;
      match es[|es| - 1]
      case Publish(to, message) => PackedSnoc(InFlight(before), Letter(to, message));
      case Arrive(i) => PackedDropped(InFlight(before), i);
      case Lose(i) => PackedDropped(InFlight(before), i);
      case _ =>
    }
  }

  lemma PackedSnoc(letters: seq<Letter>, letter: Letter)
    ensures Packed(letters + [letter]) == Packed(letters) + [Packet(Channel(letter.to), letter.message)]
  {
    hide Channel;
  }

  lemma PackedDropped(letters: seq<Letter>, i: nat)
    ensures Packed(Dropped(letters, i)) == Dropped(Packed(letters), i)
  {
    hide Channel;
  }

  lemma {:induction false} InFlightSized(es: seq<Event>, i: nat)
    requires Sized(es) && i < |InFlight(es)|
    ensures |InFlight(es)[i].to| < SIZE_RANGE
    decreases |es|
  {
    assert es != [];
    assert es[|es| - 1] in es;
    var before := es[..|es| - 1];
    var flight := InFlight(before);
    assert Sized(before);
    forall j: nat | j < |flight| ensures |flight[j].to| < SIZE_RANGE { InFlightSized(before, j); }
  }

  /** Over any run, what each stream has been offered, in order, is its greetings and exactly the messages that arrived
      for its user while it was registered. */
  lemma {:induction false} OfferedIsExpected(es: seq<Event>, stream: Stream)
    requires Sized(es)
    ensures OfferedTo(Run(es).offered, stream) == Expected(es, stream)
    decreases |es|
  {
    if es != [] {
      var before, last := es[..|es| - 1], es[|es| - 1];
      OfferedIsExpected(before, stream);
      var s, letter := Run(before), Arriving(es);
      hide Glob, Decode, Channel, Repeat, Run, InFlight, Registered;
      assert Run(es) == After(s, last) by { RunSnoc(es); }
      WireIsInFlight(before);
      if letter.Some? {
        var to, message := letter.value.to, letter.value.message;
        InFlightSized(before, last.packet);
        DecodeChannel(to);
        PatternIsChannels(Channel(to));
        OfferAllReaches(s.offered, StreamsOf(s.connections, to), Frame(message), stream);
        TableIsRegistrations(before, to, stream);
      }
    }
  }

  lemma RunSnoc(es: seq<Event>)
    requires es != []
    ensures Run(es) == After(Run(es[..|es| - 1]), es[|es| - 1])
  {
  }

  // The messages that arrived for the user while the stream was registered for it.
  function Heard(es: seq<Event>, user: string, stream: Stream): seq<string>
    decreases |es|
  {
    if es == [] then []
    else
      var before, letter := es[..|es| - 1], Arriving(es);
      var listens := Registered(before, user, stream) > 0;
      Heard(before, user, stream) +
      (if letter.Some? && letter.value.to == user && listens then [letter.value.message] else [])
  }

  function Frames(messages: seq<string>): seq<string>
    decreases |messages|
  {
    if messages == [] then [] else Frames(messages[..|messages| - 1]) + [Frame(messages[|messages| - 1])]
  }

  // As the controller opens streams: one registration, under one user, at step k of the run.
  ghost predicate OpenedOnce(es: seq<Event>, user: string, stream: Stream, k: nat) {
    && k < |es| && es[k] == Add(user, stream)
    && forall i :: 0 <= i < |es| && i != k ==> es[i].Add? ==> es[i].stream != stream
  }

  // Before it is opened a stream is nowhere and hears nothing.
  lemma {:induction false} NotYetOpened(es: seq<Event>, stream: Stream, user: string)
    requires forall e :: e in es ==> e.Add? ==> e.stream != stream
    ensures Registered(es, user, stream) == 0 && Expected(es, stream) == [] && Heard(es, user, stream) == []
    decreases |es|
  {
    if es != [] {
      var before, last := es[..|es| - 1], es[|es| - 1];
      assert last in es && forall e :: e in before ==> e in es;
      NotYetOpened(before, stream, user);
      if Arriving(es).Some? {
        var letter := Arriving(es).value;
        NotYetOpened(before, stream, letter.to);
        assert Repeat(Frame(letter.message), 0) == [];
      }
    }
  }

  lemma {:induction false} RegisteredOnce(es: seq<Event>, user: string, stream: Stream, k: nat, other: string)
    requires OpenedOnce(es, user, stream, k)
    ensures Registered(es, user, stream) <= 1 && (other != user ==> Registered(es, other, stream) == 0)
    decreases |es|
  {
    if k < |es| - 1 {
      RegisteredOnce(es[..|es| - 1], user, stream, k, other);
    } else {
      NotYetOpened(es[..k], stream, user);
      NotYetOpened(es[..k], stream, other);
    }
  }

  /** A stream opened once, at any moment of the run, hears its greeting and then each message that arrives for its user
      until it closes, once and in order of arrival. */
  lemma OpenedOnceHears(es: seq<Event>, user: string, stream: Stream, k: nat)
    requires Sized(es) && OpenedOnce(es, user, stream, k)
    ensures OfferedTo(Run(es).offered, stream) == [READY] + Frames(Heard(es, user, stream))
  {
    OfferedIsExpected(es, stream);
    ExpectedOnce(es, user, stream, k);
  }

  lemma {:induction false} FramesAre(messages: seq<string>, i: nat)
    requires i < |messages|
    ensures |Frames(messages)| == |messages| && Frames(messages)[i] == "data: " + messages[i] + "\n\n"
    decreases |messages|
  {
    hide Frame;
    var front := messages[..|messages| - 1];
    if front == [] {
      assert Frames(front) == [];
    } else {
      FramesAre(front, if i < |front| then i else 0);
    }
    FrameIs(messages[i]);
  }

  lemma FrameIs(message: string)
    ensures Frame(message) == "data: " + message + "\n\n"
  {
  }

  /** What is on the stream, byte for byte: the ready event, then per message heard one event that carries it, the
      message between "data: " and two newlines. */
  lemma StreamReads(es: seq<Event>, user: string, stream: Stream, k: nat)
    requires Sized(es) && OpenedOnce(es, user, stream, k)
    ensures var offered, heard := OfferedTo(Run(es).offered, stream), Heard(es, user, stream);
            && |offered| == |heard| + 1
            && offered[0] == "event: ready\ndata: {\"status\":\"connected\"}\n\n"
            && forall i :: 0 <= i < |heard| ==> offered[i + 1] == "data: " + heard[i] + "\n\n"
  {
    OpenedOnceHears(es, user, stream, k);
    hide Run, Heard, Frames, OpenedOnce, Sized;
    var heard := Heard(es, user, stream);
    if heard == [] {
      NoFrames();
    }
    forall i | 0 <= i < |heard| ensures |Frames(heard)| == |heard| && Frames(heard)[i] == "data: " + heard[i] + "\n\n" {
      FramesAre(heard, i);
    }
    assert heard != [] ==> 0 <= |heard| - 1 < |heard|;
  }

  lemma NoFrames()
    ensures Frames([]) == []
  {
  }

  /** Distinct messages are distinct events, and users are told apart by the channel. */
  lemma WireNames(user: string, message: string, other: string)
    ensures Frame(message) == Frame(other) ==> message == other
    ensures Channel(user) == "user:" + user + ":notifications" && PATTERN == "user:*:notifications"
    ensures Channel(user) == Channel(other) ==> user == other
  {
    assert Frame(message)[6..|message| + 6] == message && Frame(other)[6..|other| + 6] == other;
    assert Channel(user)[5..|user| + 5] == user && Channel(other)[5..|other| + 5] == other;
  }

  lemma {:induction false} ExpectedOnce(es: seq<Event>, user: string, stream: Stream, k: nat)
    requires OpenedOnce(es, user, stream, k)
    ensures Expected(es, stream) == [READY] + Frames(Heard(es, user, stream))
    decreases |es|
  {
    var before, last := es[..|es| - 1], es[|es| - 1];
    if k == |es| - 1 {
      NotYetOpened(before, stream, user);
    } else {
      ExpectedOnce(before, user, stream, k);
      RegisteredOnce(before, user, stream, k, if Arriving(es).Some? then Arriving(es).value.to else "");
      assert last.Add? ==> last.stream != stream;
      hide OpenedOnce, Registered, Frame, Expected, Heard, Arriving;
      ExpectedOnceStep(es, user, stream);
    }
  }

  lemma FramesSnoc(messages: seq<string>, message: string)
    ensures Frames(messages + [message]) == Frames(messages) + [Frame(message)]
  {
    hide Frame;
    assert (messages + [message])[..|messages|] == messages;
  }

  lemma ExpectedOnceStep(es: seq<Event>, user: string, stream: Stream)
    requires |es| > 0
    requires var before, last, letter := es[..|es| - 1], es[|es| - 1], Arriving(es);
             && Expected(before, stream) == [READY] + Frames(Heard(before, user, stream))
             && (last.Add? ==> last.stream != stream)
             && (letter.Some? ==> Registered(before, user, stream) <= 1)
             && (letter.Some? && letter.value.to != user ==> Registered(before, letter.value.to, stream) == 0)
    ensures Expected(es, stream) == [READY] + Frames(Heard(es, user, stream))
  {
    var before, letter := es[..|es| - 1], Arriving(es);
    var heard := Heard(before, user, stream);
    hide Arriving, Registered, Frame;
    if letter.Some? && letter.value.to == user && Registered(before, user, stream) > 0 {
      var message := letter.value.message;
      RepeatOnce(Frame(message), 0);
      FramesSnoc(heard, message);
      hide Frames, Repeat;
      Associative([READY], Frames(heard), [Frame(message)]);
    } else {
      assert letter.Some? ==> Repeat(Frame(letter.value.message), 0) == [];
      assert Expected(before, stream) + [] == Expected(before, stream);
      assert heard + [] == heard;
    }
  }

  // ---- the manager object ----

  class SseConnectionManager {
    var connections: Table
    var offered: map<Stream, seq<string>>

    constructor ()
      ensures Snapshot([]) == START
    {
      connections, offered := map[], map[];
    }

    // The state of the whole, for what is under way outside the manager.
    ghost function Snapshot(wire: seq<Packet>): State
      reads this
    {
      State(connections, offered, wire)
    }

    method AddConnection(user: string, stream: Stream)
      modifies this
      ensures forall wire :: Snapshot(wire) == After(old(Snapshot(wire)), Add(user, stream))
      ensures old(NoneEmpty(connections)) ==> NoneEmpty(connections)
    {
      if user !in connections {
        connections := connections[user := []];
      }
      connections := connections[user := connections[user] + [stream]];
      offered := Offer(offered, stream, READY);
    }

    method RemoveConnection(user: string, stream: Stream)
      modifies this`connections
      ensures forall wire :: Snapshot(wire) == After(old(Snapshot(wire)), Remove(user, stream))
      ensures old(NoneEmpty(connections)) ==> NoneEmpty(connections)
      ensures stream !in StreamsOf(connections, user)
    {
      if user !in connections {
        return;
      }
      connections := connections[user := Without(connections[user], stream)];
      if connections[user] == [] {
        connections := connections - {user};
      }
    }

    method SendToUser(user: string, frame: string)
      modifies this`offered
      ensures offered == OfferAll(old(offered), StreamsOf(connections, user), frame)
      ensures forall x ::
               OfferedTo(offered, x)
               == OfferedTo(old(offered), x) + Repeat(frame, multiset(StreamsOf(connections, user))[x])
    {
      forall x { OfferAllReaches(offered, StreamsOf(connections, user), frame, x); }
      if user !in connections {
        return;
      }
      var streams := connections[user];
      for i := 0 to |streams|
        invariant connections == old(connections)
        invariant offered == OfferAll(old(offered), streams[..i], frame)
      {
        assert streams[..i + 1][..i] == streams[..i];
        offered := Offer(offered, streams[i], frame);
      }
      assert streams[..|streams|] == streams;
    }

    // The callback of the pattern subscription: whichever packet this is, the state moves as by its arrival.
    method OnMessage(channel: string, message: string)
      requires Glob(PATTERN, channel)
      modifies this`offered
      ensures forall wire, i: nat :: i < |wire| && wire[i] == Packet(channel, message) ==>
                Snapshot(Dropped(wire, i)) == After(old(Snapshot(wire)), Arrive(i))
      ensures Decode(channel).Some? ==>
                forall x :: OfferedTo(offered, x)
                  == OfferedTo(old(offered), x)
                      + Repeat(Frame(message), multiset(StreamsOf(connections, Decode(channel).value))[x])
    {
      hide Glob, Decode, OfferAll, StreamsOf;
      var user := Decode(channel);
      if user.None? {
        return;
      }
      SendToUser(user.value, Frame(message));
    }
  }

  class RedisNotificationService {
    const connected: bool
    var wire: seq<Packet>

    constructor (connected: bool)
      ensures wire == [] && this.connected == connected
    {
      this.connected, wire := connected, [];
    }

    // The payload's text is left to the caller; without a client nothing is sent.
    method SendNotification(user: string, message: string)
      modifies this
      ensures wire == if connected then old(wire) + [Packet(Channel(user), message)] else old(wire)
      ensures forall s: State ::
               connected && s.wire == old(wire) ==> After(s, Publish(user, message)) == s.(wire := wire)
      ensures connected ==> Glob(PATTERN, wire[|wire| - 1].channel)
    {
      PatternIsChannels(Channel(user));
      if !connected {
        return;
      }
      var channel := PREFIX + user + SUFFIX;
      wire := wire + [Packet(channel, message)];
    }
  }
}
