/**
 The in-process queue (internal/queue/memory/memory.go) before Close: one
 buffered channel per shard, a pump per subscription and a table of messages
 handed out but not acknowledged. Publishers stamp an id before they send, and a
 pump holds a message between receiving and recording it; these are the steps
 that interleave. Ids are unbounded numbers.
 */
module MemoryQueue {

  const BUFFER := 1024

  datatype Message = Message(key: string, payload: string)

  datatype Delivery = Delivery(msg: Message, id: int, shard: nat, deliveries: nat)

  datatype Pending = Pending(d: Delivery, since: int)

  datatype Config = Config(shards: int, hash: string -> nat)

  /** Where a stamped message is, for the record. */
  datatype Place = Stamped(publisher: int) | InChannel | InHand(pump: int) | AwaitingAck | Acknowledged

  datatype Track = Track(d: Delivery, at: Place)

  /** The queue's variables, and the record: per shard what was sent and what a
      pump took, the acknowledged ids and every stamped message's whereabouts. */
  datatype State = State(counter: nat, stamps: map<int, Delivery>, chans: seq<seq<Delivery>>, hands: map<int, Delivery>,
                         pending: seq<map<int, Pending>>, sent: seq<seq<Delivery>>, taken: seq<seq<Delivery>>,
                         acked: set<int>, tracks: map<int, Track>)

  datatype Action =
    | Stamp(w: int, msg: Message)
    | Send(w: int)
    | Cancel(w: int)
    | Take(p: int, shard: nat)
    | Record(p: int, now: int)
    | Ack(d: Delivery)
    | Reclaim(shard: nat, minIdle: int, now: int)

  function Shards(cfg: Config): nat {
    if cfg.shards < 1 then 1 else cfg.shards
  }

  function ShardOf(cfg: Config, key: string): (r: nat)
    ensures r < Shards(cfg)
  {
    if Shards(cfg) <= 1 then 0 else cfg.hash(key) % Shards(cfg)
  }

  /** The shard is what the hash leaves over: any two keys a multiple apart share it. */
  lemma ShardIsResidue(cfg: Config, key: string)
    ensures exists q: nat :: cfg.hash(key) == q * Shards(cfg) + ShardOf(cfg, key)
  {
    var h, n := cfg.hash(key), Shards(cfg);
    assert h == (h / n) * n + h % n;
    assert ShardOf(cfg, key) == h % n;
    hide ShardOf;
  }

  function Start(cfg: Config): State {
    var n := Shards(cfg);
    State(0, map[], seq(n, _ => []), map[], seq(n, _ => map[]), seq(n, _ => []), seq(n, _ => []), {}, map[])
  }

  /** Every shard has its channel and its tables; stamped messages know their shard. */
  predicate Shaped(cfg: Config, s: State) {
    var n := Shards(cfg);
    && |s.chans| == n && |s.pending| == n && |s.sent| == n && |s.taken| == n
    && (forall w <- s.stamps :: s.stamps[w].shard < n)
    && (forall p <- s.hands :: s.hands[p].shard < n)
  }

  predicate Enabled(cfg: Config, s: State, a: Action)
    requires Shaped(cfg, s)
  {
    match a
    case Stamp(w, _) => w !in s.stamps
    case Send(w) => w in s.stamps && |s.chans[s.stamps[w].shard]| < BUFFER
    case Cancel(w) => w in s.stamps
    case Take(p, sh) => p !in s.hands && sh < Shards(cfg) && s.chans[sh] != [] && s.chans[sh][0].shard < Shards(cfg)
    case Record(p, _) => p in s.hands
    case Ack(d) => d.shard < Shards(cfg)
    case Reclaim(sh, _, _) => sh < Shards(cfg)
  }

  /** Idle entries are handed out again. */
  function Aged(m: map<int, Pending>, minIdle: int, now: int): (r: map<int, Pending>)
    ensures r.Keys == m.Keys
  {
    map id | id in m :: Renewed(m[id], minIdle, now)
  }

  function Renewed(p: Pending, minIdle: int, now: int): Pending {
    if now - p.since >= minIdle then Pending(p.d.(deliveries := p.d.deliveries + 1), now) else p
  }

  function Move(s: State, id: int, at: Place): map<int, Track> {
    if id in s.tracks then s.tracks[id := Track(s.tracks[id].d, at)] else s.tracks
  }

  function Do(cfg: Config, s: State, a: Action): State
    requires Shaped(cfg, s) && Enabled(cfg, s, a)
  {
    match a
    case Stamp(w, msg) =>
      var d := Delivery(msg, s.counter + 1, ShardOf(cfg, msg.key), 1);
      s.(counter := s.counter + 1, stamps := s.stamps[w := d], tracks := s.tracks[d.id := Track(d, Stamped(w))])
    case Send(w) =>
      var d := s.stamps[w];
      s.(stamps := s.stamps - {w}, chans := s.chans[d.shard := s.chans[d.shard] + [d]],
         sent := s.sent[d.shard := s.sent[d.shard] + [d]], tracks := Move(s, d.id, InChannel))
    case Cancel(w) =>
      s.(stamps := s.stamps - {w}, tracks := s.tracks - {s.stamps[w].id})
    case Take(p, sh) =>
      var d := s.chans[sh][0];
      s.(chans := s.chans[sh := s.chans[sh][1..]], hands := s.hands[p := d],
         taken := s.taken[sh := s.taken[sh] + [d]], tracks := Move(s, d.id, InHand(p)))
    case Record(p, now) =>
      var d := s.hands[p];
      s.(hands := s.hands - {p}, pending := s.pending[d.shard := s.pending[d.shard][d.id := Pending(d, now)]],
         tracks := Move(s, d.id, AwaitingAck))
    case Ack(d) =>
      if d.id !in s.pending[d.shard] then s
      else s.(pending := s.pending[d.shard := s.pending[d.shard] - {d.id}], acked := s.acked + {d.id},
              tracks := Move(s, d.id, Acknowledged))
    case Reclaim(sh, minIdle, now) =>
      s.(pending := s.pending[sh := Aged(s.pending[sh], minIdle, now)])
  }

  // ------------------------------------------------------------------ invariants

  /** A message's record and the place it names agree. */
  predicate TrackOk(cfg: Config, s: State, id: int)
    requires Shaped(cfg, s) && id in s.tracks
  {
    var d := s.tracks[id].d;
    && d.id == id && 1 <= id <= s.counter && d.shard < Shards(cfg) && d.deliveries == 1
    && match s.tracks[id].at
       case Stamped(w) => w in s.stamps && s.stamps[w] == d
       case InChannel => d in s.chans[d.shard] && d in s.sent[d.shard]
       case InHand(p) => p in s.hands && s.hands[p] == d && d in s.sent[d.shard]
       case AwaitingAck => id in s.pending[d.shard] && d in s.sent[d.shard]
       case Acknowledged => id in s.acked && d in s.sent[d.shard]
  }

  predicate At(s: State, d: Delivery, at: Place) {
    d.id in s.tracks && s.tracks[d.id] == Track(d, at)
  }

  predicate PendingOk(s: State, sh: nat, id: int)
    requires sh < |s.pending| && id in s.pending[sh]
  {
    var d := s.pending[sh][id].d;
    d.id == id && d.shard == sh && d.deliveries >= 1 && At(s, d.(deliveries := 1), AwaitingAck)
  }

  predicate Sent(s: State, d: Delivery) {
    d.id in s.tracks && s.tracks[d.id].d == d && !s.tracks[d.id].at.Stamped?
  }

  ghost predicate DistinctIds(ds: seq<Delivery>) {
    forall i, j | 0 <= i < j < |ds| :: ds[i].id != ds[j].id
  }

  ghost predicate ShardOk(s: State, sh: nat)
    requires sh < |s.chans| && |s.chans| == |s.sent| == |s.taken| == |s.pending|
  {
    && s.sent[sh] == s.taken[sh] + s.chans[sh]
    && DistinctIds(s.sent[sh])
    && |s.chans[sh]| <= BUFFER
    && (forall d <- s.sent[sh] :: d.shard == sh && Sent(s, d))
    && (forall d <- s.chans[sh] :: At(s, d, InChannel))
    && (forall id <- s.pending[sh] :: PendingOk(s, sh, id))
  }

  ghost predicate TracksOk(cfg: Config, s: State)
    requires Shaped(cfg, s)
  {
    forall id <- s.tracks :: TrackOk(cfg, s, id)
  }

  ghost predicate ShardsOk(cfg: Config, s: State)
    requires Shaped(cfg, s)
  {
    forall sh | 0 <= sh < Shards(cfg) :: ShardOk(s, sh)
  }

  /** Publishers, pumps and the acknowledged ids are on record. */
  ghost predicate RosterOk(s: State) {
    && (forall w <- s.stamps :: At(s, s.stamps[w], Stamped(w)))
    && (forall p <- s.hands :: At(s, s.hands[p], InHand(p)))
    && (forall id <- s.acked :: id in s.tracks && s.tracks[id].at == Acknowledged)
  }

  ghost predicate Counted(s: State) {
    Total(s.sent) == Total(s.chans) + |s.hands| + TotalPending(s.pending) + |s.acked|
  }

  ghost predicate Inv(cfg: Config, s: State) {
    Shaped(cfg, s) && TracksOk(cfg, s) && ShardsOk(cfg, s) && RosterOk(s) && Counted(s)
  }

  // --------------------------------------------------------------------- counting

  function Total(ds: seq<seq<Delivery>>): nat {
    if ds == [] then 0 else Total(ds[..|ds| - 1]) + |ds[|ds| - 1]|
  }

  function TotalPending(ms: seq<map<int, Pending>>): nat {
    if ms == [] then 0 else TotalPending(ms[..|ms| - 1]) + |ms[|ms| - 1]|
  }

  lemma {:induction false} TotalUpdate(ds: seq<seq<Delivery>>, k: nat, x: seq<Delivery>)
    requires k < |ds|
    ensures Total(ds[k := x]) + |ds[k]| == Total(ds) + |x|
  {
    var n := |ds| - 1;
    if k < n {
      assert ds[k := x][..n] == ds[..n][k := x];
      TotalUpdate(ds[..n], k, x);
    } else {
      assert ds[k := x][..n] == ds[..n];
    }
  }

  lemma {:induction false} TotalPendingUpdate(ms: seq<map<int, Pending>>, k: nat, x: map<int, Pending>)
    requires k < |ms|
    ensures TotalPending(ms[k := x]) + |ms[k]| == TotalPending(ms) + |x|
  {
    var n := |ms| - 1;
    if k < n {
      assert ms[k := x][..n] == ms[..n][k := x];
      TotalPendingUpdate(ms[..n], k, x);
    } else {
      assert ms[k := x][..n] == ms[..n];
    }
  }

  lemma {:induction false} TotalEmpty(n: nat)
    ensures Total(seq(n, _ => [])) == 0 && TotalPending(seq(n, _ => map[])) == 0
  {
    if n > 0 {
      var ds: seq<seq<Delivery>>, ms: seq<map<int, Pending>> := seq(n, _ => []), seq(n, _ => map[]);
      assert ds[..n - 1] == seq(n - 1, _ => []) && ms[..n - 1] == seq(n - 1, _ => map[]);
      TotalEmpty(n - 1);
    }
  }

  lemma RemoveOne<V>(m: map<int, V>, k: int)
    requires k in m
    ensures |m - {k}| == |m| - 1
  {
    assert (m - {k}).Keys == m.Keys - {k};
    assert |(m - {k}).Keys| == |m.Keys| - 1;
  }

  lemma AddOne<V>(m: map<int, V>, k: int, v: V)
    requires k !in m
    ensures |m[k := v]| == |m| + 1
  {
    assert m[k := v].Keys == m.Keys + {k};
  }

  lemma SameKeys<V>(m: map<int, V>, n: map<int, V>)
    requires m.Keys == n.Keys
    ensures |m| == |n|
  {
    assert |m| == |m.Keys| && |n| == |n.Keys|;
  }

  // ----------------------------------------------------------------- every step

  lemma InvAt(cfg: Config, s: State, id: int)
    requires Inv(cfg, s) && id in s.tracks
    ensures TrackOk(cfg, s, id)
  {
  }

  lemma ShardAt(cfg: Config, s: State, sh: nat)
    requires Inv(cfg, s) && sh < Shards(cfg)
    ensures ShardOk(s, sh)
  {
  }

  /** A shard none of whose messages changed place. */
  lemma ShardStays(s: State, t: State, sh: nat)
    requires |s.chans| == |s.sent| == |s.taken| == |s.pending| && |t.chans| == |t.sent| == |t.taken| == |t.pending| == |s.chans|
    requires sh < |s.chans| && ShardOk(s, sh)
    requires t.chans[sh] == s.chans[sh] && t.sent[sh] == s.sent[sh] && t.taken[sh] == s.taken[sh]
    requires t.pending[sh] == s.pending[sh]
    requires forall d <- s.sent[sh] :: d.id in t.tracks && t.tracks[d.id] == s.tracks[d.id]
    requires forall id <- s.pending[sh] :: id in t.tracks && t.tracks[id] == s.tracks[id]
    ensures ShardOk(t, sh)
  {
    forall d <- t.chans[sh] ensures At(t, d, InChannel) { assert At(s, d, InChannel); assert d in s.sent[sh]; }
    forall id <- t.pending[sh] ensures PendingOk(t, sh, id) { assert PendingOk(s, sh, id); }
  }

  lemma StampIsNew(cfg: Config, s: State)
    requires Inv(cfg, s)
    ensures s.counter + 1 !in s.tracks
  {
    assert forall id <- s.tracks :: TrackOk(cfg, s, id);
  }

  lemma StampShards(cfg: Config, s: State, w: int, msg: Message)
    requires Inv(cfg, s) && Enabled(cfg, s, Stamp(w, msg))
    ensures ShardsOk(cfg, Do(cfg, s, Stamp(w, msg)))
  {
    var t := Do(cfg, s, Stamp(w, msg));
    StampIsNew(cfg, s);
    hide TracksOk, RosterOk, Counted;
    forall sh | 0 <= sh < Shards(cfg) ensures ShardOk(t, sh) {
      ShardAt(cfg, s, sh);
      forall d <- s.sent[sh] ensures d.id in t.tracks && t.tracks[d.id] == s.tracks[d.id] { assert Sent(s, d); }
      forall id <- s.pending[sh] ensures id in t.tracks && t.tracks[id] == s.tracks[id] { assert PendingOk(s, sh, id); }
      ShardStays(s, t, sh);
    }
  }

  lemma StampKeepsInv(cfg: Config, s: State, w: int, msg: Message)
    requires Inv(cfg, s) && Enabled(cfg, s, Stamp(w, msg))
    ensures Inv(cfg, Do(cfg, s, Stamp(w, msg)))
  {
    var t := Do(cfg, s, Stamp(w, msg));
    StampIsNew(cfg, s);
    StampShards(cfg, s, w, msg);
    hide ShardsOk, Total, TotalPending;
    forall id <- t.tracks ensures TrackOk(cfg, t, id) {
      if id in s.tracks { InvAt(cfg, s, id); }
    }
  }

  lemma CancelShards(cfg: Config, s: State, w: int)
    requires Inv(cfg, s) && Enabled(cfg, s, Cancel(w))
    ensures ShardsOk(cfg, Do(cfg, s, Cancel(w)))
  {
    var t := Do(cfg, s, Cancel(w));
    assert At(s, s.stamps[w], Stamped(w));
    hide TracksOk, RosterOk, Counted;
    forall sh | 0 <= sh < Shards(cfg) ensures ShardOk(t, sh) {
      ShardAt(cfg, s, sh);
      forall d <- s.sent[sh] ensures d.id in t.tracks && t.tracks[d.id] == s.tracks[d.id] { assert Sent(s, d); }
      forall id <- s.pending[sh] ensures id in t.tracks && t.tracks[id] == s.tracks[id] { assert PendingOk(s, sh, id); }
      ShardStays(s, t, sh);
    }
  }

  lemma CancelTrack(cfg: Config, s: State, w: int, id: int)
    requires Inv(cfg, s) && Enabled(cfg, s, Cancel(w)) && id in s.tracks && id != s.stamps[w].id
    ensures TrackOk(cfg, Do(cfg, s, Cancel(w)), id)
  {
    InvAt(cfg, s, id);
    hide Inv;
  }

  lemma CancelRoster(cfg: Config, s: State, w: int)
    requires Inv(cfg, s) && Enabled(cfg, s, Cancel(w))
    ensures RosterOk(Do(cfg, s, Cancel(w)))
  {
    assert At(s, s.stamps[w], Stamped(w));
    hide TracksOk, ShardsOk, Counted;
  }

  lemma CancelKeepsInv(cfg: Config, s: State, w: int)
    requires Inv(cfg, s) && Enabled(cfg, s, Cancel(w))
    ensures Inv(cfg, Do(cfg, s, Cancel(w)))
  {
    var t := Do(cfg, s, Cancel(w));
    CancelRoster(cfg, s, w);
    CancelShards(cfg, s, w);
    hide ShardsOk, RosterOk, Total, TotalPending, TrackOk;
    forall id <- t.tracks ensures TrackOk(cfg, t, id) { CancelTrack(cfg, s, w, id); }
  }

  /** One message changes place; the other shards do not notice. */
  lemma OthersStay(cfg: Config, s: State, t: State, x: int, at: Place, sh: nat)
    requires Inv(cfg, s) && Shaped(cfg, t) && x in s.tracks && t.tracks == Move(s, x, at)
    requires sh < Shards(cfg) && s.tracks[x].d.shard != sh
    requires t.chans[sh] == s.chans[sh] && t.sent[sh] == s.sent[sh] && t.taken[sh] == s.taken[sh]
    requires t.pending[sh] == s.pending[sh]
    ensures ShardOk(t, sh)
  {
    hide Counted, RosterOk, TrackOk;
    ShardAt(cfg, s, sh);
    forall d <- s.sent[sh] ensures d.id in t.tracks && t.tracks[d.id] == s.tracks[d.id] { assert Sent(s, d); }
    forall id <- s.pending[sh] ensures id in t.tracks && t.tracks[id] == s.tracks[id] { assert PendingOk(s, sh, id); }
    ShardStays(s, t, sh);
  }

  lemma ChannelGains(s: State, t: State, sh: nat, d: Delivery)
    requires |s.chans| == |s.sent| == |s.taken| == |s.pending| && |t.chans| == |t.sent| == |t.taken| == |t.pending| == |s.chans|
    requires sh < |s.chans| && ShardOk(s, sh) && |s.chans[sh]| < BUFFER
    requires t.chans[sh] == s.chans[sh] + [d] && t.sent[sh] == s.sent[sh] + [d] && t.taken[sh] == s.taken[sh]
    requires t.pending[sh] == s.pending[sh]
    requires exists w :: At(s, d, Stamped(w))
    requires t.tracks == Move(s, d.id, InChannel) && d.shard == sh
    ensures ShardOk(t, sh)
  {
    forall e <- s.sent[sh] ensures e.id != d.id { assert Sent(s, e); }
    forall e <- t.chans[sh] ensures At(t, e, InChannel) {
      if e != d { assert e in s.chans[sh]; assert e in s.sent[sh]; assert At(s, e, InChannel); }
    }
    forall id <- t.pending[sh] ensures PendingOk(t, sh, id) { assert PendingOk(s, sh, id); }
    forall e <- t.sent[sh] ensures e.shard == sh && Sent(t, e) { if e != d { assert Sent(s, e); } }
    assert s.taken[sh] + (s.chans[sh] + [d]) == s.taken[sh] + s.chans[sh] + [d];
  }

  lemma SendTrack(cfg: Config, s: State, w: int, id: int)
    requires Inv(cfg, s) && Enabled(cfg, s, Send(w)) && id in s.tracks
    ensures TrackOk(cfg, Do(cfg, s, Send(w)), id)
  {
    assert At(s, s.stamps[w], Stamped(w));
    InvAt(cfg, s, id);
    hide Inv;
  }

  lemma SendShard(cfg: Config, s: State, w: int, sh: nat)
    requires Inv(cfg, s) && Enabled(cfg, s, Send(w)) && sh < Shards(cfg)
    ensures ShardOk(Do(cfg, s, Send(w)), sh)
  {
    var t, d := Do(cfg, s, Send(w)), s.stamps[w];
    assert At(s, d, Stamped(w));
    ShardAt(cfg, s, sh);
    hide TracksOk, RosterOk, Counted, ShardsOk, ShardOk;
    if sh != d.shard { OthersStay(cfg, s, t, d.id, InChannel, sh); } else { ChannelGains(s, t, sh, d); }
  }

  lemma SendKeepsInv(cfg: Config, s: State, w: int)
    requires Inv(cfg, s) && Enabled(cfg, s, Send(w))
    ensures Inv(cfg, Do(cfg, s, Send(w)))
  {
    var t, d := Do(cfg, s, Send(w)), s.stamps[w];
    assert At(s, d, Stamped(w));
    TotalUpdate(s.sent, d.shard, s.sent[d.shard] + [d]);
    TotalUpdate(s.chans, d.shard, s.chans[d.shard] + [d]);
    hide Total, TotalPending, TrackOk, ShardOk;
    forall id <- t.tracks ensures TrackOk(cfg, t, id) { SendTrack(cfg, s, w, id); }
    forall sh | 0 <= sh < Shards(cfg) ensures ShardOk(t, sh) { SendShard(cfg, s, w, sh); }
  }

  lemma ChannelLoses(s: State, t: State, sh: nat, p: int)
    requires |s.chans| == |s.sent| == |s.taken| == |s.pending| && |t.chans| == |t.sent| == |t.taken| == |t.pending| == |s.chans|
    requires sh < |s.chans| && ShardOk(s, sh) && s.chans[sh] != []
    requires var d := s.chans[sh][0];
      && t.chans[sh] == s.chans[sh][1..] && t.taken[sh] == s.taken[sh] + [d] && t.sent[sh] == s.sent[sh]
      && t.tracks == Move(s, d.id, InHand(p))
    requires t.pending[sh] == s.pending[sh]
    ensures ShardOk(t, sh)
  {
    var d, n := s.chans[sh][0], |s.taken[sh]|;
    assert At(s, d, InChannel);
    assert s.sent[sh] == s.taken[sh] + [d] + s.chans[sh][1..];
    forall e <- t.chans[sh] ensures At(t, e, InChannel) {
      var i :| 0 <= i < |t.chans[sh]| && t.chans[sh][i] == e;
      assert e == s.chans[sh][i + 1] == s.sent[sh][n + i + 1] && d == s.sent[sh][n];
      assert At(s, e, InChannel);
    }
    forall id <- t.pending[sh] ensures PendingOk(t, sh, id) { assert PendingOk(s, sh, id); }
    forall e <- t.sent[sh] ensures e.shard == sh && Sent(t, e) { assert Sent(s, e); }
  }

  lemma TakeKeepsTrack(cfg: Config, s: State, p: int, shard: nat, id: int)
    requires Inv(cfg, s) && Enabled(cfg, s, Take(p, shard)) && id in s.tracks
    ensures TrackOk(cfg, Do(cfg, s, Take(p, shard)), id)
  {
    var d := s.chans[shard][0];
    ShardAt(cfg, s, shard);
    InvAt(cfg, s, id);
    hide Inv;
    assert At(s, d, InChannel) && Sent(s, d) && d in s.sent[shard];
    var e := s.tracks[id].d;
    if e in s.chans[shard] && e != d {
      assert e in s.chans[shard][1..];
    }
  }

  lemma TakeShard(cfg: Config, s: State, p: int, shard: nat, sh: nat)
    requires Inv(cfg, s) && Enabled(cfg, s, Take(p, shard)) && sh < Shards(cfg)
    ensures ShardOk(Do(cfg, s, Take(p, shard)), sh)
  {
    var t, d := Do(cfg, s, Take(p, shard)), s.chans[shard][0];
    HeadIsBuffered(cfg, s, shard);
    ShardAt(cfg, s, sh);
    hide TracksOk, RosterOk, Counted, ShardsOk, ShardOk;
    if sh != shard { OthersStay(cfg, s, t, d.id, InHand(p), sh); } else { ChannelLoses(s, t, sh, p); }
  }

  lemma HeadIsBuffered(cfg: Config, s: State, shard: nat)
    requires Inv(cfg, s) && shard < Shards(cfg) && s.chans[shard] != []
    ensures At(s, s.chans[shard][0], InChannel) && s.chans[shard][0].shard == shard
  {
    ShardAt(cfg, s, shard);
    assert s.chans[shard][0] in s.sent[shard];
  }

  lemma TakeKeepsInv(cfg: Config, s: State, p: int, shard: nat)
    requires Inv(cfg, s) && Enabled(cfg, s, Take(p, shard))
    ensures Inv(cfg, Do(cfg, s, Take(p, shard)))
  {
    var t, d := Do(cfg, s, Take(p, shard)), s.chans[shard][0];
    HeadIsBuffered(cfg, s, shard);
    TotalUpdate(s.chans, shard, s.chans[shard][1..]);
    AddOne(s.hands, p, d);
    hide Total, TotalPending, TrackOk, ShardOk;
    forall id <- t.tracks ensures TrackOk(cfg, t, id) { TakeKeepsTrack(cfg, s, p, shard, id); }
    forall sh | 0 <= sh < Shards(cfg) ensures ShardOk(t, sh) { TakeShard(cfg, s, p, shard, sh); }
  }

  /** A shard whose pending table changes at one id, along with that id's place. */
  lemma TableChanges(cfg: Config, s: State, t: State, sh: nat, x: int, at: Place)
    requires Inv(cfg, s) && Shaped(cfg, t) && x in s.tracks && t.tracks == Move(s, x, at)
    requires sh < Shards(cfg) && s.tracks[x].at != InChannel && !s.tracks[x].at.Stamped? && !at.Stamped?
    requires t.chans[sh] == s.chans[sh] && t.sent[sh] == s.sent[sh] && t.taken[sh] == s.taken[sh]
    requires forall id <- t.pending[sh] | id != x :: id in s.pending[sh] && t.pending[sh][id] == s.pending[sh][id]
    requires x in t.pending[sh] ==> PendingOk(t, sh, x)
    ensures ShardOk(t, sh)
  {
    hide Counted, RosterOk, TrackOk;
    ShardAt(cfg, s, sh);
    forall e <- t.chans[sh] ensures At(t, e, InChannel) { assert At(s, e, InChannel); }
    forall id <- t.pending[sh] ensures PendingOk(t, sh, id) { if id != x { assert PendingOk(s, sh, id); } }
    forall e <- t.sent[sh] ensures e.shard == sh && Sent(t, e) { assert Sent(s, e); }
  }

  /** A message in a pump's hand is not pending yet and was delivered once. */
  lemma RecordIsOne(cfg: Config, s: State, d: Delivery, p: int)
    requires Inv(cfg, s) && At(s, d, InHand(p)) && d.shard < Shards(cfg)
    ensures d.id !in s.pending[d.shard] && d.deliveries == 1
  {
    ShardAt(cfg, s, d.shard);
    assert d.id in s.pending[d.shard] ==> PendingOk(s, d.shard, d.id);
    InvAt(cfg, s, d.id);
  }

  lemma RecordTrack(cfg: Config, s: State, p: int, now: int, id: int)
    requires Inv(cfg, s) && Enabled(cfg, s, Record(p, now)) && id in s.tracks
    ensures TrackOk(cfg, Do(cfg, s, Record(p, now)), id)
  {
    assert At(s, s.hands[p], InHand(p));
    InvAt(cfg, s, id);
    InvAt(cfg, s, s.hands[p].id);
    hide Inv;
  }

  lemma RecordShard(cfg: Config, s: State, p: int, now: int, sh: nat)
    requires Inv(cfg, s) && Enabled(cfg, s, Record(p, now)) && sh < Shards(cfg)
    ensures ShardOk(Do(cfg, s, Record(p, now)), sh)
  {
    var t, d := Do(cfg, s, Record(p, now)), s.hands[p];
    assert At(s, d, InHand(p));
    RecordIsOne(cfg, s, d, p);
    hide TracksOk, RosterOk, Counted, ShardsOk, ShardOk;
    if sh != d.shard { OthersStay(cfg, s, t, d.id, AwaitingAck, sh); }
    else { TableChanges(cfg, s, t, sh, d.id, AwaitingAck); }
  }

  lemma RecordKeepsInv(cfg: Config, s: State, p: int, now: int)
    requires Inv(cfg, s) && Enabled(cfg, s, Record(p, now))
    ensures Inv(cfg, Do(cfg, s, Record(p, now)))
  {
    var t, d := Do(cfg, s, Record(p, now)), s.hands[p];
    assert At(s, d, InHand(p));
    RecordIsOne(cfg, s, d, p);
    TotalPendingUpdate(s.pending, d.shard, s.pending[d.shard][d.id := Pending(d, now)]);
    AddOne(s.pending[d.shard], d.id, Pending(d, now));
    RemoveOne(s.hands, p);
    hide Total, TotalPending, TrackOk, ShardOk;
    forall id <- t.tracks ensures TrackOk(cfg, t, id) { RecordTrack(cfg, s, p, now, id); }
    forall sh | 0 <= sh < Shards(cfg) ensures ShardOk(t, sh) { RecordShard(cfg, s, p, now, sh); }
  }

  lemma AckFinds(cfg: Config, s: State, d: Delivery)
    requires Inv(cfg, s) && d.shard < Shards(cfg) && d.id in s.pending[d.shard]
    ensures d.id in s.tracks && s.tracks[d.id].at == AwaitingAck && s.tracks[d.id].d.shard == d.shard
  {
    ShardAt(cfg, s, d.shard);
    assert PendingOk(s, d.shard, d.id);
  }

  lemma AckTrack(cfg: Config, s: State, d: Delivery, id: int)
    requires Inv(cfg, s) && Enabled(cfg, s, Ack(d)) && d.id in s.pending[d.shard] && id in s.tracks
    ensures TrackOk(cfg, Do(cfg, s, Ack(d)), id)
  {
    AckFinds(cfg, s, d);
    InvAt(cfg, s, id);
    InvAt(cfg, s, d.id);
    hide Inv;
  }

  lemma AckShard(cfg: Config, s: State, d: Delivery, sh: nat)
    requires Inv(cfg, s) && Enabled(cfg, s, Ack(d)) && d.id in s.pending[d.shard] && sh < Shards(cfg)
    ensures ShardOk(Do(cfg, s, Ack(d)), sh)
  {
    var t := Do(cfg, s, Ack(d));
    AckFinds(cfg, s, d);
    hide TracksOk, RosterOk, Counted, ShardsOk, ShardOk;
    if sh != d.shard { OthersStay(cfg, s, t, d.id, Acknowledged, sh); }
    else { TableChanges(cfg, s, t, sh, d.id, Acknowledged); }
  }

  lemma AckCounts(cfg: Config, s: State, d: Delivery)
    requires Inv(cfg, s) && Enabled(cfg, s, Ack(d)) && d.id in s.pending[d.shard]
    ensures Counted(Do(cfg, s, Ack(d)))
  {
    var k := d.shard;
    AckFinds(cfg, s, d);
    assert d.id !in s.acked;
    TotalPendingUpdate(s.pending, k, s.pending[k] - {d.id});
    RemoveOne(s.pending[k], d.id);
    hide Total, TotalPending, TracksOk, ShardsOk, RosterOk, Move;
  }

  lemma AckRoster(cfg: Config, s: State, d: Delivery)
    requires Inv(cfg, s) && Enabled(cfg, s, Ack(d)) && d.id in s.pending[d.shard]
    ensures RosterOk(Do(cfg, s, Ack(d)))
  {
    var t := Do(cfg, s, Ack(d));
    AckFinds(cfg, s, d);
    assert t.tracks == Move(s, d.id, Acknowledged) && t.stamps == s.stamps && t.hands == s.hands && t.acked == s.acked + {d.id};
    assert RosterOk(s) && d.id in s.tracks && s.tracks[d.id].at == AwaitingAck;
    hide *;
    RosterAcks(s, t, d.id);
  }

  lemma RosterAcks(s: State, t: State, id: int)
    requires RosterOk(s) && id in s.tracks && s.tracks[id].at == AwaitingAck && t.tracks == Move(s, id, Acknowledged)
    requires t.stamps == s.stamps && t.hands == s.hands && t.acked == s.acked + {id}
    ensures RosterOk(t)
  {
    forall w <- t.stamps ensures At(t, t.stamps[w], Stamped(w)) { assert At(s, s.stamps[w], Stamped(w)); }
    forall p <- t.hands ensures At(t, t.hands[p], InHand(p)) { assert At(s, s.hands[p], InHand(p)); }
  }

  lemma AckKeepsInv(cfg: Config, s: State, d: Delivery)
    requires Inv(cfg, s) && Enabled(cfg, s, Ack(d)) && d.id in s.pending[d.shard]
    ensures Inv(cfg, Do(cfg, s, Ack(d)))
  {
    var t := Do(cfg, s, Ack(d));
    AckFinds(cfg, s, d);
    AckCounts(cfg, s, d);
    AckRoster(cfg, s, d);
    assert t.tracks.Keys == s.tracks.Keys;
    hide Counted, RosterOk, TrackOk, ShardOk, Move;
    forall id <- t.tracks ensures TrackOk(cfg, t, id) { AckTrack(cfg, s, d, id); }
    forall sh | 0 <= sh < Shards(cfg) ensures ShardOk(t, sh) { AckShard(cfg, s, d, sh); }
  }

  lemma ShardStaysPut(s: State, t: State, sh: nat)
    requires |s.chans| == |s.sent| == |s.taken| == |s.pending| && |t.chans| == |t.sent| == |t.taken| == |t.pending| == |s.chans|
    requires sh < |s.chans| && ShardOk(s, sh) && t.tracks == s.tracks
    requires t.chans[sh] == s.chans[sh] && t.sent[sh] == s.sent[sh] && t.taken[sh] == s.taken[sh]
    requires t.pending[sh] == s.pending[sh]
    ensures ShardOk(t, sh)
  {
    forall d <- s.sent[sh] ensures d.id in t.tracks { assert Sent(s, d); }
    forall id <- s.pending[sh] ensures id in t.tracks { assert PendingOk(s, sh, id); }
    ShardStays(s, t, sh);
  }

  lemma ShardAges(s: State, t: State, sh: nat, minIdle: int, now: int)
    requires |s.chans| == |s.sent| == |s.taken| == |s.pending| && |t.chans| == |t.sent| == |t.taken| == |t.pending| == |s.chans|
    requires sh < |s.chans| && ShardOk(s, sh) && t.tracks == s.tracks
    requires t.chans[sh] == s.chans[sh] && t.sent[sh] == s.sent[sh] && t.taken[sh] == s.taken[sh]
    requires t.pending[sh] == Aged(s.pending[sh], minIdle, now)
    ensures ShardOk(t, sh)
  {
    forall d <- t.chans[sh] ensures At(t, d, InChannel) { assert At(s, d, InChannel); }
    forall d <- t.sent[sh] ensures d.shard == sh && Sent(t, d) { assert Sent(s, d); }
    forall id <- t.pending[sh] ensures PendingOk(t, sh, id) { assert PendingOk(s, sh, id); }
  }

  lemma ReclaimTrack(cfg: Config, s: State, k: nat, minIdle: int, now: int, id: int)
    requires Inv(cfg, s) && Enabled(cfg, s, Reclaim(k, minIdle, now)) && id in s.tracks
    ensures TrackOk(cfg, Do(cfg, s, Reclaim(k, minIdle, now)), id)
  {
    InvAt(cfg, s, id);
    hide Inv, Aged;
  }

  lemma ReclaimCounts(cfg: Config, s: State, k: nat, minIdle: int, now: int)
    requires Inv(cfg, s) && Enabled(cfg, s, Reclaim(k, minIdle, now))
    ensures Counted(Do(cfg, s, Reclaim(k, minIdle, now))) && RosterOk(Do(cfg, s, Reclaim(k, minIdle, now)))
  {
    var aged := Aged(s.pending[k], minIdle, now);
    TotalPendingUpdate(s.pending, k, aged);
    SameKeys(s.pending[k], aged);
    hide Total, TotalPending, TracksOk, ShardsOk, Aged;
  }

  lemma ReclaimKeepsInv(cfg: Config, s: State, k: nat, minIdle: int, now: int)
    requires Inv(cfg, s) && Enabled(cfg, s, Reclaim(k, minIdle, now))
    ensures Inv(cfg, Do(cfg, s, Reclaim(k, minIdle, now)))
  {
    var t := Do(cfg, s, Reclaim(k, minIdle, now));
    ReclaimCounts(cfg, s, k, minIdle, now);
    hide Counted, RosterOk, ShardOk, TrackOk, Aged;
    forall id <- t.tracks ensures TrackOk(cfg, t, id) { ReclaimTrack(cfg, s, k, minIdle, now, id); }
    forall sh | 0 <= sh < Shards(cfg) ensures ShardOk(t, sh) {
      ShardAt(cfg, s, sh);
      if sh != k { ShardStaysPut(s, t, sh); } else { ShardAges(s, t, sh, minIdle, now); }
    }
  }

  lemma StepKeepsInv(cfg: Config, s: State, a: Action)
    requires Shaped(cfg, s) && Inv(cfg, s) && Enabled(cfg, s, a)
    ensures Inv(cfg, Do(cfg, s, a))
  {
    hide Inv;
    match a
    case Stamp(w, msg) => StampKeepsInv(cfg, s, w, msg);
    case Send(w) => SendKeepsInv(cfg, s, w);
    case Cancel(w) => CancelKeepsInv(cfg, s, w);
    case Take(p, sh) => TakeKeepsInv(cfg, s, p, sh);
    case Record(p, now) => RecordKeepsInv(cfg, s, p, now);
    case Ack(d) => if d.id in s.pending[d.shard] { AckKeepsInv(cfg, s, d); }
    case Reclaim(sh, minIdle, now) => ReclaimKeepsInv(cfg, s, sh, minIdle, now);
  }

  // -------------------------------------------------------------------- all runs

  /** Everything is in shape and the actions can be taken one after the other. */
  predicate Schedule(cfg: Config, s: State, actions: seq<Action>)
    decreases |actions|
  {
    && Shaped(cfg, s)
    && (actions != [] ==> Enabled(cfg, s, actions[0]) && Schedule(cfg, Do(cfg, s, actions[0]), actions[1..]))
  }

  function Run(cfg: Config, s: State, actions: seq<Action>): State
    requires Schedule(cfg, s, actions)
    decreases |actions|
  {
    if actions == [] then s else Run(cfg, Do(cfg, s, actions[0]), actions[1..])
  }

  lemma StartInv(cfg: Config)
    ensures Inv(cfg, Start(cfg))
  {
    TotalEmpty(Shards(cfg));
  }

  lemma {:induction false} RunKeepsInv(cfg: Config, s: State, actions: seq<Action>)
    requires Inv(cfg, s) && Schedule(cfg, s, actions)
    ensures Inv(cfg, Run(cfg, s, actions))
    decreases |actions|
  {
    if actions != [] {
      hide Inv, Do, Enabled, Shaped;
      StepKeepsInv(cfg, s, actions[0]);
      RunKeepsInv(cfg, Do(cfg, s, actions[0]), actions[1..]);
    }
  }

  // ---------------------------------------------------------------- the theorems

  ghost predicate Buffered(s: State, d: Delivery)
    requires d.shard < |s.chans|
  {
    d in s.chans[d.shard]
  }

  ghost predicate Held(s: State, d: Delivery) { exists p <- s.hands :: s.hands[p] == d }

  /** Pending as it was published, but for the delivery count. */
  ghost predicate Unacked(s: State, d: Delivery)
    requires d.shard < |s.pending|
  {
    d.id in s.pending[d.shard] && s.pending[d.shard][d.id].d.(deliveries := 1) == d
  }

  function One(b: bool): nat { if b then 1 else 0 }

  /** In every run each sent message is in exactly one place: its shard's channel,
      a pump's hand, the pending table, or acknowledged. */
  lemma ExactlyOnePlace(cfg: Config, actions: seq<Action>, sh: nat, d: Delivery)
    requires Schedule(cfg, Start(cfg), actions) && sh < Shards(cfg)
    requires var s := Run(cfg, Start(cfg), actions); Shaped(cfg, s) && d in s.sent[sh]
    ensures var s := Run(cfg, Start(cfg), actions);
      && d.shard == sh
      && One(Buffered(s, d)) + One(Held(s, d)) + One(Unacked(s, d)) + One(d.id in s.acked) == 1
  {
    StartInv(cfg);
    RunKeepsInv(cfg, Start(cfg), actions);
    SentIsSomewhere(cfg, Run(cfg, Start(cfg), actions), sh, d);
  }

  lemma SentIsSomewhere(cfg: Config, s: State, sh: nat, d: Delivery)
    requires Inv(cfg, s) && sh < Shards(cfg) && d in s.sent[sh]
    ensures d.shard == sh
    ensures One(Buffered(s, d)) + One(Held(s, d)) + One(Unacked(s, d)) + One(d.id in s.acked) == 1
  {
    hide Counted;
    ShardAt(cfg, s, sh);
    assert Sent(s, d);
    InvAt(cfg, s, d.id);
    assert Buffered(s, d) ==> At(s, d, InChannel);
    assert d.id in s.pending[sh] ==> PendingOk(s, sh, d.id);
    assert forall p <- s.hands :: At(s, s.hands[p], InHand(p));
  }

  /** In every run a shard's messages are taken in the order they were sent, each
      once: what was sent is what was taken followed by what is buffered. */
  lemma TakenInOrder(cfg: Config, actions: seq<Action>, sh: nat)
    requires Schedule(cfg, Start(cfg), actions) && sh < Shards(cfg)
    ensures var s := Run(cfg, Start(cfg), actions);
      Shaped(cfg, s) && s.sent[sh] == s.taken[sh] + s.chans[sh] && DistinctIds(s.sent[sh])
  {
    StartInv(cfg);
    RunKeepsInv(cfg, Start(cfg), actions);
    ShardAt(cfg, Run(cfg, Start(cfg), actions), sh);
  }

  lemma {:induction false} AckedStays(cfg: Config, s: State, actions: seq<Action>, id: int)
    requires Schedule(cfg, s, actions) && id in s.acked
    ensures id in Run(cfg, s, actions).acked
    decreases |actions|
  {
    if actions != [] { AckedStays(cfg, Do(cfg, s, actions[0]), actions[1..], id); }
  }

  /** An acknowledged message is never pending, buffered or held again. */
  lemma AckedForGood(cfg: Config, s: State, actions: seq<Action>, id: int, sh: nat)
    requires Inv(cfg, s) && Schedule(cfg, s, actions) && id in s.acked && sh < Shards(cfg)
    ensures var t := Run(cfg, s, actions);
      && Shaped(cfg, t) && id !in t.pending[sh]
      && (forall d <- t.chans[sh] :: d.id != id) && (forall p <- t.hands :: t.hands[p].id != id)
  {
    AckedStays(cfg, s, actions, id);
    RunKeepsInv(cfg, s, actions);
    var t := Run(cfg, s, actions);
    hide Run, Counted, TrackOk;
    ShardAt(cfg, t, sh);
    assert id in t.pending[sh] ==> PendingOk(t, sh, id);
    assert forall d <- t.chans[sh] :: At(t, d, InChannel);
    assert forall p <- t.hands :: At(t, t.hands[p], InHand(p));
  }

  /** The backlog: sent, less acknowledged, less what pumps are holding. */
  lemma DepthIsBacklog(cfg: Config, actions: seq<Action>)
    requires Schedule(cfg, Start(cfg), actions)
    ensures var s := Run(cfg, Start(cfg), actions);
      Total(s.chans) + TotalPending(s.pending) == Total(s.sent) - |s.acked| - |s.hands|
  {
    StartInv(cfg);
    RunKeepsInv(cfg, Start(cfg), actions);
  }

  // ----------------------------------------------------------------- as it runs

  /** d is an idle entry, delivered once more. */
  predicate Redelivered(m: map<int, Pending>, minIdle: int, now: int, d: Delivery) {
    d.id in m && now - m[d.id].since >= minIdle && d == m[d.id].d.(deliveries := m[d.id].d.deliveries + 1)
  }

  /** Walks a pending table in any order, renewing the idle entries. */
  method AgeAll(m: map<int, Pending>, minIdle: int, now: int) returns (r: map<int, Pending>, out: seq<Delivery>)
    requires forall id <- m :: m[id].d.id == id
    ensures r == Aged(m, minIdle, now) && r.Keys == m.Keys
    ensures forall id <- m ::
      if now - m[id].since >= minIdle then r[id] == Pending(m[id].d.(deliveries := m[id].d.deliveries + 1), now)
      else r[id] == m[id]
    ensures forall d :: d in out <==> Redelivered(m, minIdle, now, d)
    ensures DistinctIds(out)
  {
    r, out := m, [];
    var todo: set<int> := m.Keys;
    while exists id :: id in todo
      invariant todo <= m.Keys && r.Keys == m.Keys
      decreases todo
      invariant forall id <- m :: r[id] == if id in todo then m[id] else Renewed(m[id], minIdle, now)
      invariant forall i | 0 <= i < |out| :: out[i].id !in todo && Redelivered(m, minIdle, now, out[i])
      invariant forall id <- m | id !in todo && now - m[id].since >= minIdle :: Renewed(m[id], minIdle, now).d in out
      invariant DistinctIds(out)
    {
      var id :| id in todo;
      var e := r[id];
      todo := todo - {id};
      if now - e.since >= minIdle {
        e := Pending(e.d.(deliveries := e.d.deliveries + 1), now);
        r, out := r[id := e], out + [e.d];
      }
    }
    assert forall id <- m :: r[id] == Aged(m, minIdle, now)[id];
  }

  /** A schedule may go on with any step that can be taken where it ends. */
  lemma {:induction false} RunSnoc(cfg: Config, s: State, actions: seq<Action>, a: Action)
    requires Schedule(cfg, s, actions) && Inv(cfg, Run(cfg, s, actions)) && Enabled(cfg, Run(cfg, s, actions), a)
    ensures Schedule(cfg, s, actions + [a]) && Run(cfg, s, actions + [a]) == Do(cfg, Run(cfg, s, actions), a)
    ensures Inv(cfg, Run(cfg, s, actions + [a])) && Shaped(cfg, Run(cfg, s, actions))
    decreases |actions|
  {
    if actions == [] {
      assert ([a])[1..] == [] && actions + [a] == [a];
      StepKeepsInv(cfg, s, a);
      InvShaped(cfg, Do(cfg, s, a));
      hide Do, Enabled, Inv, Shaped;
    } else {
      assert (actions + [a])[1..] == actions[1..] + [a];
      hide Do, Enabled, Inv, Shaped;
      RunSnoc(cfg, Do(cfg, s, actions[0]), actions[1..], a);
    }
  }

  lemma InvShaped(cfg: Config, s: State)
    requires Inv(cfg, s)
    ensures Shaped(cfg, s)
  {
  }

  /** What stamping leaves. */
  lemma StampIs(cfg: Config, s: State, w: int, msg: Message)
    requires Inv(cfg, s) && Enabled(cfg, s, Stamp(w, msg))
    ensures var d := Delivery(msg, s.counter + 1, ShardOf(cfg, msg.key), 1); var t := Do(cfg, s, Stamp(w, msg));
      && t == s.(counter := d.id, stamps := s.stamps[w := d], tracks := t.tracks)
      && d.shard < |s.chans| && |s.chans[d.shard]| <= BUFFER && At(t, d, Stamped(w))
  {
    ShardAt(cfg, s, ShardOf(cfg, msg.key));
    hide Inv, Enabled, ShardOf;
  }

  /** What sending leaves. */
  lemma SendIs(cfg: Config, s: State, w: int)
    requires Inv(cfg, s) && Enabled(cfg, s, Send(w))
    ensures w in s.stamps
    ensures var d := s.stamps[w]; var t := Do(cfg, s, Send(w));
      && d.shard < |s.chans| && d.shard < |s.sent|
      && t == s.(stamps := s.stamps - {w}, chans := s.chans[d.shard := s.chans[d.shard] + [d]],
                 sent := s.sent[d.shard := s.sent[d.shard] + [d]], tracks := t.tracks)
  {
    hide TracksOk, ShardsOk, RosterOk, Counted;
  }

  /** Taking takes what is next in the order of sending. */
  lemma TakeIs(cfg: Config, s: State, p: int, shard: nat)
    requires Inv(cfg, s) && Enabled(cfg, s, Take(p, shard))
    ensures shard < |s.chans| && shard < |s.taken| && shard < |s.sent| && s.chans[shard] != []
    ensures var d := s.chans[shard][0]; var t := Do(cfg, s, Take(p, shard));
      && d.shard == shard && |s.taken[shard]| < |s.sent[shard]| && d == s.sent[shard][|s.taken[shard]|]
      && t == s.(chans := s.chans[shard := s.chans[shard][1..]], hands := s.hands[p := d],
                 taken := s.taken[shard := s.taken[shard] + [d]], tracks := t.tracks)
  {
    ShardAt(cfg, s, shard);
    assert s.sent[shard] == s.taken[shard] + s.chans[shard];
    assert s.chans[shard][0] in s.sent[shard];
    hide TracksOk, ShardsOk, RosterOk, Counted, DistinctIds, Sent, At, PendingOk;
  }

  /** A recorded message is unacknowledged. */
  lemma RecordIs(cfg: Config, s: State, p: int, now: int)
    requires Inv(cfg, s) && Enabled(cfg, s, Record(p, now))
    ensures p in s.hands && s.hands[p].shard < |s.pending|
    ensures var d := s.hands[p]; var t := Do(cfg, s, Record(p, now));
      && Unacked(t, d) && d.id !in t.acked && t.pending[d.shard][d.id].since == now
      && t == s.(pending := s.pending[d.shard := s.pending[d.shard][d.id := Pending(d, now)]], hands := s.hands - {p},
                 tracks := t.tracks)
  {
    var d := s.hands[p];
    assert At(s, d, InHand(p));
    RecordIsOne(cfg, s, d, p);
    assert d.id !in s.acked;
    hide TracksOk, ShardsOk, RosterOk, Counted;
  }

  /** What is pending once a message is acknowledged. */
  lemma AckLeaves(cfg: Config, s: State, d: Delivery)
    requires Shaped(cfg, s) && Enabled(cfg, s, Ack(d))
    ensures d.shard < |s.pending|
    ensures var t := Do(cfg, s, Ack(d)); var m := s.pending[d.shard];
      && |t.pending| == |s.pending| && d.id !in t.pending[d.shard] && OthersPending(s.pending, t.pending, d)
      && t.acked == s.acked + (if d.id in m then {d.id} else {})
      && t == if d.id in m then s.(pending := s.pending[d.shard := m - {d.id}], acked := t.acked, tracks := t.tracks) else s
  {
  }

  lemma CancelIs(cfg: Config, s: State, w: int)
    requires Shaped(cfg, s) && Enabled(cfg, s, Cancel(w))
    ensures var t := Do(cfg, s, Cancel(w)); t == s.(stamps := s.stamps - {w}, tracks := t.tracks)
  {
  }

  lemma EntriesKnowIds(cfg: Config, s: State, sh: nat)
    requires Inv(cfg, s) && sh < Shards(cfg)
    ensures forall id <- s.pending[sh] :: s.pending[sh][id].d.id == id
  {
    ShardAt(cfg, s, sh);
    forall id <- s.pending[sh] ensures s.pending[sh][id].d.id == id { assert PendingOk(s, sh, id); }
  }

  lemma ReclaimIs(cfg: Config, s: State, shard: nat, minIdle: int, now: int)
    requires Inv(cfg, s) && Enabled(cfg, s, Reclaim(shard, minIdle, now))
    ensures shard < |s.pending| && forall id <- s.pending[shard] :: s.pending[shard][id].d.id == id
    ensures Do(cfg, s, Reclaim(shard, minIdle, now)) ==
      s.(pending := s.pending[shard := Aged(s.pending[shard], minIdle, now)])
  {
    EntriesKnowIds(cfg, s, shard);
    hide TracksOk, ShardsOk, RosterOk, Counted, Aged;
  }

  /** Nothing else has stopped or started being pending. */
  ghost predicate OthersPending(ms: seq<map<int, Pending>>, ns: seq<map<int, Pending>>, d: Delivery)
    requires |ms| == |ns|
  {
    forall sh, id | 0 <= sh < |ms| && (sh != d.shard || id != d.id) :: id in ms[sh] <==> id in ns[sh]
  }

  // ------------------------------------------------------------- what others may do

  /** The step is publisher w's own. */
  predicate Own(a: Action, w: int) {
    (a.Stamp? || a.Send? || a.Cancel?) && a.w == w
  }

  /** The step needs no lock on the pending tables. */
  predicate Lockless(a: Action) {
    a.Stamp? || a.Send? || a.Cancel? || a.Take?
  }

  /** Whatever was sent to a shard is still there, and comes first. */
  ghost predicate SentGrows(was: seq<seq<Delivery>>, now: seq<seq<Delivery>>) {
    |was| == |now| && forall sh | 0 <= sh < |was| :: was[sh] <= now[sh]
  }

  lemma SentGrowsTrans(xs: seq<seq<Delivery>>, ys: seq<seq<Delivery>>, zs: seq<seq<Delivery>>)
    requires SentGrows(xs, ys) && SentGrows(ys, zs)
    ensures SentGrows(xs, zs)
  {
  }

  /** Others' steps leave a stamped message with its publisher. */
  lemma OthersLeave(cfg: Config, s: State, a: Action, w: int)
    requires Shaped(cfg, s) && Enabled(cfg, s, a) && !Own(a, w) && w in s.stamps
    ensures var t := Do(cfg, s, a); w in t.stamps && t.stamps[w] == s.stamps[w] && SentGrows(s.sent, t.sent)
  {
    hide Aged, Move;
  }

  lemma StampedAt(cfg: Config, s: State, w: int)
    requires Inv(cfg, s) && w in s.stamps
    ensures var d := s.stamps[w]; At(s, d, Stamped(w)) && d.shard < |s.chans| && |s.chans[d.shard]| <= BUFFER
  {
    ShardAt(cfg, s, s.stamps[w].shard);
    hide TracksOk, ShardsOk, Counted;
  }

  /** A cancelled message was never sent. */
  lemma CancelledUnsent(cfg: Config, s: State, w: int)
    requires Inv(cfg, s) && Enabled(cfg, s, Cancel(w))
    ensures var d := s.stamps[w]; forall sh | 0 <= sh < |s.sent| :: d !in s.sent[sh]
  {
    StampedAt(cfg, s, w);
    forall sh | 0 <= sh < |s.sent| ensures s.stamps[w] !in s.sent[sh] {
      ShardAt(cfg, s, sh);
      hide ShardsOk, TracksOk, RosterOk, Counted;
      assert s.stamps[w] in s.sent[sh] ==> Sent(s, s.stamps[w]);
    }
  }

  /** What a count that has read the first i shards has still to read. */
  ghost function Unread(s: State, i: nat): int
    requires i <= |s.chans| == |s.pending|
  {
    Total(s.chans) - Total(s.chans[..i]) + TotalPending(s.pending) - TotalPending(s.pending[..i])
  }

  /** `y` is `x`, give or take what was sent and taken between the two states. */
  ghost predicate Within(s: State, t: State, x: int, y: int) {
    x - (Total(t.taken) - Total(s.taken)) <= y <= x + (Total(t.sent) - Total(s.sent))
  }

  lemma PrefixUpdate(ds: seq<seq<Delivery>>, k: nat, x: seq<Delivery>, i: nat)
    requires k < |ds| && i <= |ds|
    ensures Total(ds[k := x][..i]) == Total(ds[..i]) + if k < i then |x| - |ds[k]| else 0
  {
    if k < i {
      assert ds[k := x][..i] == ds[..i][k := x];
      TotalUpdate(ds[..i], k, x);
    } else {
      assert ds[k := x][..i] == ds[..i];
    }
  }

  /** One step of another that needs no lock changes the count yet to come by what it
      sends or takes, at most. */
  lemma LocklessShifts(cfg: Config, s: State, a: Action, i: nat)
    requires Inv(cfg, s) && Enabled(cfg, s, a) && Lockless(a) && i <= Shards(cfg)
    ensures var t := Do(cfg, s, a);
      && |t.chans| == |t.pending| == Shards(cfg) && t.pending == s.pending && |s.chans| == Shards(cfg)
      && Within(s, t, Unread(s, i), Unread(t, i))
      && Total(s.sent) <= Total(t.sent) && Total(s.taken) <= Total(t.taken)
  {
    InvShaped(cfg, s);
    assert |s.chans| == |s.pending| == Shards(cfg);
    hide *;
    match a
    case Stamp(_, _) => StillShifts(cfg, s, a, i);
    case Cancel(_) => StillShifts(cfg, s, a, i);
    case Send(w) =>
      SendShifts(cfg, s, w, i);
      WithinIs(s, Do(cfg, s, a), Unread(s, i), Unread(Do(cfg, s, a), i));
    case Take(p, sh) =>
      TakeShifts(cfg, s, p, sh, i);
      WithinIs(s, Do(cfg, s, a), Unread(s, i), Unread(Do(cfg, s, a), i));
  }

  lemma WithinIs(s: State, t: State, x: int, y: int)
    ensures Within(s, t, x, y) <==> x - (Total(t.taken) - Total(s.taken)) <= y <= x + (Total(t.sent) - Total(s.sent))
  {
    hide Total;
  }

  lemma StillShifts(cfg: Config, s: State, a: Action, i: nat)
    requires Shaped(cfg, s) && Enabled(cfg, s, a) && (a.Stamp? || a.Cancel?) && i <= Shards(cfg)
    ensures var t := Do(cfg, s, a);
      && |t.chans| == |t.pending| == Shards(cfg) && t.pending == s.pending
      && Within(s, t, Unread(s, i), Unread(t, i)) && t.sent == s.sent && t.taken == s.taken
  {
    var t := Do(cfg, s, a);
    assert t.chans == s.chans && t.pending == s.pending && t.sent == s.sent && t.taken == s.taken;
    hide Total, TotalPending, Do, ShardOf;
  }

  lemma SendShifts(cfg: Config, s: State, w: int, i: nat)
    requires Shaped(cfg, s) && Enabled(cfg, s, Send(w)) && i <= Shards(cfg)
    ensures var t := Do(cfg, s, Send(w));
      && |t.chans| == |t.pending| == Shards(cfg) && t.pending == s.pending && t.taken == s.taken
      && Unread(s, i) <= Unread(t, i) <= Unread(s, i) + 1 && Total(t.sent) == Total(s.sent) + 1
  {
    var d := s.stamps[w];
    TotalUpdate(s.chans, d.shard, s.chans[d.shard] + [d]);
    PrefixUpdate(s.chans, d.shard, s.chans[d.shard] + [d], i);
    TotalUpdate(s.sent, d.shard, s.sent[d.shard] + [d]);
    hide Total, TotalPending;
  }

  lemma TakeShifts(cfg: Config, s: State, p: int, sh: nat, i: nat)
    requires Shaped(cfg, s) && Enabled(cfg, s, Take(p, sh)) && i <= Shards(cfg)
    ensures var t := Do(cfg, s, Take(p, sh));
      && |t.chans| == |t.pending| == Shards(cfg) && t.pending == s.pending && t.sent == s.sent
      && Unread(s, i) - 1 <= Unread(t, i) <= Unread(s, i) && Total(t.taken) == Total(s.taken) + 1
  {
    TotalUpdate(s.chans, sh, s.chans[sh][1..]);
    PrefixUpdate(s.chans, sh, s.chans[sh][1..], i);
    TotalUpdate(s.taken, sh, s.taken[sh] + [s.chans[sh][0]]);
    hide Total, TotalPending;
  }

  lemma ReadShard(s: State, i: nat)
    requires i < |s.chans| == |s.pending|
    ensures Unread(s, i) == |s.chans[i]| + |s.pending[i]| + Unread(s, i + 1)
  {
    assert s.chans[..i + 1][..i] == s.chans[..i] && s.pending[..i + 1][..i] == s.pending[..i];
  }

  lemma UnreadEnds(s: State)
    requires |s.chans| == |s.pending|
    ensures Unread(s, |s.chans|) == 0 && Unread(s, 0) == Total(s.chans) + TotalPending(s.pending)
  {
    assert s.chans[..|s.chans|] == s.chans && s.pending[..|s.pending|] == s.pending;
    assert s.chans[..0] == [] && s.pending[..0] == [];
  }

  /** How a publish ends: accepted, given up, or waiting for room in the channel. */
  datatype Result = Published | Cancelled | Waiting

  class Queue {
    const cfg: Config
    var counter: nat
    var stamps: map<int, Delivery>
    var chans: seq<seq<Delivery>>
    var hands: map<int, Delivery>
    var pending: seq<map<int, Pending>>
    ghost var sent: seq<seq<Delivery>>
    ghost var taken: seq<seq<Delivery>>
    ghost var acked: set<int>
    ghost var tracks: map<int, Track>
    ghost var trace: seq<Action>

    ghost function Now(): State
      reads this
    {
      State(counter, stamps, chans, hands, pending, sent, taken, acked, tracks)
    }

    /** The queue's fields are what some schedule leaves, so all that is proved of
        every run is true of them. */
    ghost predicate Valid()
      reads this
    {
      Inv(cfg, Now()) && Schedule(cfg, Start(cfg), trace) && Run(cfg, Start(cfg), trace) == Now()
    }

    constructor (cfg: Config)
      ensures Valid() && this.cfg == cfg && trace == []
    {
      var n := Shards(cfg);
      this.cfg, counter, stamps, hands := cfg, 0, map[], map[];
      chans, pending := seq(n, _ => []), seq(n, _ => map[]);
      sent, taken, acked, tracks, trace := seq(n, _ => []), seq(n, _ => []), {}, map[], [];
      new;
      StartInv(cfg);
    }

    /** Can the step be taken now? */
    predicate May(a: Action)
      reads this
    {
      match a
      case Stamp(w, _) => w !in stamps
      case Send(w) => w in stamps && stamps[w].shard < |chans| && |chans[stamps[w].shard]| < BUFFER
      case Cancel(w) => w in stamps
      case Take(p, sh) => p !in hands && sh < |chans| && chans[sh] != [] && chans[sh][0].shard < |chans|
      case Record(p, _) => p in hands
      case Ack(d) => d.shard < |chans|
      case Reclaim(sh, _, _) => sh < |chans|
    }

    lemma MayIs(a: Action)
      requires Valid()
      ensures Shaped(cfg, Now()) && |chans| == |pending| == |sent| == |taken| == Shards(cfg)
      ensures May(a) <==> Enabled(cfg, Now(), a)
    {
      InvShaped(cfg, Now());
      hide Inv, Run, Schedule, Start;
    }

    /** Any one step, by the method that takes it. */
    method Step(a: Action)
      requires Valid() && May(a)
      modifies this
      ensures Valid() && Shaped(cfg, old(Now())) && Enabled(cfg, old(Now()), a)
      ensures trace == old(trace) + [a] && Now() == Do(cfg, old(Now()), a)
    {
      MayIs(a);
      hide Inv, Run, Schedule, Start, Do, Enabled, Shaped, At, Unacked, Aged, ShardOf, Redelivered, OthersPending, DistinctIds;
      RunSnoc(cfg, Start(cfg), trace, a);
      match a
      case Stamp(w, msg) => var _ := Number(w, msg);
      case Send(w) => Enter(w);
      case Cancel(w) => Drop(w);
      case Take(p, sh) => var _ := Receive(p, sh);
      case Record(p, now) => var _ := HandOut(p, now);
      case Ack(d) => Acknowledge(d);
      case Reclaim(sh, minIdle, now) => var _ := ReclaimIdle(sh, minIdle, now);
    }

    /** Whatever the others manage to do while publisher w waits. */
    method Meanwhile(w: int, actions: seq<Action>)
      requires Valid() && w in stamps
      modifies this
      ensures Valid() && old(trace) <= trace
      ensures w in stamps && stamps[w] == old(stamps[w]) && SentGrows(old(sent), sent)
    {
      hide Inv, Run, Schedule, Start, Do, Enabled, Shaped;
      for i := 0 to |actions|
        invariant Valid() && old(trace) <= trace
        invariant w in stamps && stamps[w] == old(stamps[w]) && SentGrows(old(sent), sent)
      {
        if !Own(actions[i], w) && May(actions[i]) {
          MayIs(actions[i]);
          OthersLeave(cfg, Now(), actions[i], w);
          ghost var was := sent;
          Step(actions[i]);
          SentGrowsTrans(old(sent), was, sent);
        }
      }
    }

    /** Stamps the message and, whatever the others do in between, sends it: it comes
        last of what was sent to its shard, unless the caller has gone, or it waits
        while the channel is full. */
    method Publish(w: int, msg: Message, others: seq<Action>, cancelled: bool) returns (r: Result)
      requires Valid() && Enabled(cfg, Now(), Stamp(w, msg))
      modifies this
      ensures Valid() && old(trace) + [Stamp(w, msg)] <= trace && SentGrows(old(sent), sent)
      ensures r == Cancelled <==> cancelled
      ensures var sh := ShardOf(cfg, msg.key); var d := Delivery(msg, old(counter) + 1, sh, 1);
        && sh < |sent| && sh < |chans|
        && match r
           case Published => sent[sh] != [] && sent[sh][|sent[sh]| - 1] == d && trace[|trace| - 1] == Send(w)
           case Cancelled => (forall x | 0 <= x < |sent| :: d !in sent[x]) && trace[|trace| - 1] == Cancel(w)
           case Waiting => At(Now(), d, Stamped(w)) && |chans[sh]| == BUFFER
    {
      hide Inv, Run, Schedule, Start, Do, Shaped, ShardOf, At;
      MayIs(Stamp(w, msg));
      var d := Number(w, msg);
      hide Enabled;
      Meanwhile(w, others);
      StampedAt(cfg, Now(), w);
      MayIs(Send(w));
      MayIs(Cancel(w));
      if cancelled {
        CancelledUnsent(cfg, Now(), w);
        Drop(w);
        MayIs(Send(w));
        return Cancelled;
      }
      if |chans[d.shard]| == BUFFER {
        return Waiting;
      }
      ghost var was := sent;
      Enter(w);
      assert SentGrows(was, sent);
      SentGrowsTrans(old(sent), was, sent);
      MayIs(Send(w));
      return Published;
    }

    method Number(w: int, msg: Message) returns (d: Delivery)
      requires Valid() && Enabled(cfg, Now(), Stamp(w, msg))
      modifies this
      ensures Valid() && trace == old(trace) + [Stamp(w, msg)]
      ensures d == Delivery(msg, old(counter) + 1, ShardOf(cfg, msg.key), 1) && stamps == old(stamps)[w := d]
      ensures chans == old(chans) && sent == old(sent) && At(Now(), d, Stamped(w))
      ensures d.shard < |chans| && |chans[d.shard]| <= BUFFER
    {
      hide Inv, Schedule, Run, Start, Do, Enabled, Shaped, At, Unacked, Aged, ShardOf;
      RunSnoc(cfg, Start(cfg), trace, Stamp(w, msg));
      ghost var t := Do(cfg, Now(), Stamp(w, msg));
      StampIs(cfg, Now(), w, msg);
      counter := counter + 1;
      d := Delivery(msg, counter, ShardOf(cfg, msg.key), 1);
      stamps := stamps[w := d];
      tracks := t.tracks;
      trace := trace + [Stamp(w, msg)];
      assert Now() == t;
    }

    method Enter(w: int)
      requires Valid() && Enabled(cfg, Now(), Send(w))
      modifies this
      ensures Valid() && trace == old(trace) + [Send(w)]
      ensures var d := old(stamps)[w]; d.shard < |old(sent)| && sent == old(sent)[d.shard := old(sent)[d.shard] + [d]]
    {
      hide Inv, Schedule, Run, Start, Do, Enabled, Shaped, At, Unacked, Aged, ShardOf;
      RunSnoc(cfg, Start(cfg), trace, Send(w));
      ghost var t := Do(cfg, Now(), Send(w));
      SendIs(cfg, Now(), w);
      var d := stamps[w];
      tracks := t.tracks;
      stamps, chans := stamps - {w}, chans[d.shard := chans[d.shard] + [d]];
      sent := sent[d.shard := sent[d.shard] + [d]];
      trace := trace + [Send(w)];
      assert Now() == t;
    }

    method Drop(w: int)
      requires Valid() && Enabled(cfg, Now(), Cancel(w))
      modifies this
      ensures Valid() && trace == old(trace) + [Cancel(w)] && sent == old(sent)
    {
      hide Inv, Schedule, Run, Start, Do, Enabled, Shaped, At, Unacked, Aged, ShardOf;
      RunSnoc(cfg, Start(cfg), trace, Cancel(w));
      ghost var t := Do(cfg, Now(), Cancel(w));
      CancelIs(cfg, Now(), w);
      tracks := t.tracks;
      stamps := stamps - {w};
      trace := trace + [Cancel(w)];
      assert Now() == t;
    }

    /** A pump receives the oldest message that has been sent and not yet taken. */
    method Receive(p: int, shard: nat) returns (d: Delivery)
      requires Valid() && Enabled(cfg, Now(), Take(p, shard))
      modifies this
      ensures Valid() && trace == old(trace) + [Take(p, shard)]
      ensures var n := |old(taken)[shard]|; n < |sent[shard]| && d == sent[shard][n] && d.shard == shard
      ensures sent == old(sent) && taken[shard] == old(taken)[shard] + [d] && p in hands && hands[p] == d
    {
      hide Inv, Schedule, Run, Start, Do, Enabled, Shaped, At, Unacked, Aged, ShardOf;
      RunSnoc(cfg, Start(cfg), trace, Take(p, shard));
      ghost var t := Do(cfg, Now(), Take(p, shard));
      TakeIs(cfg, Now(), p, shard);
      d := chans[shard][0];
      tracks := t.tracks;
      chans, hands := chans[shard := chans[shard][1..]], hands[p := d];
      taken := taken[shard := taken[shard] + [d]];
      trace := trace + [Take(p, shard)];
      assert Now() == t;
    }

    /** ... and notes it before handing it out: it is unacknowledged from then on. */
    method HandOut(p: int, now: int) returns (d: Delivery)
      requires Valid() && Enabled(cfg, Now(), Record(p, now))
      modifies this
      ensures Valid() && trace == old(trace) + [Record(p, now)]
      ensures d == old(hands)[p] && d.shard < |pending| && Unacked(Now(), d) && d.id !in acked && p !in hands
      ensures pending[d.shard][d.id].since == now
    {
      hide Inv, Schedule, Run, Start, Do, Enabled, Shaped, At, Unacked, Aged, ShardOf;
      RunSnoc(cfg, Start(cfg), trace, Record(p, now));
      ghost var t := Do(cfg, Now(), Record(p, now));
      RecordIs(cfg, Now(), p, now);
      d := hands[p];
      tracks := t.tracks;
      pending, hands := pending[d.shard := pending[d.shard][d.id := Pending(d, now)]], hands - {p};
      trace := trace + [Record(p, now)];
      assert Now() == t;
    }

    /** An acknowledged message is no longer pending, and acknowledged for good if it was. */
    method Acknowledge(d: Delivery)
      requires Valid() && Enabled(cfg, Now(), Ack(d))
      modifies this
      ensures Valid() && trace == old(trace) + [Ack(d)] && |pending| == |old(pending)|
      ensures d.id !in pending[d.shard] && acked == old(acked) + if d.id in old(pending)[d.shard] then {d.id} else {}
      ensures OthersPending(old(pending), pending, d)
    {
      hide Inv, Schedule, Run, Start, Do, Enabled, Shaped, At, Unacked, Aged, ShardOf;
      RunSnoc(cfg, Start(cfg), trace, Ack(d));
      ghost var t := Do(cfg, Now(), Ack(d));
      AckLeaves(cfg, Now(), d);
      var table := pending[d.shard];
      if d.id in table {
        tracks, acked := t.tracks, t.acked;
        pending := pending[d.shard := table - {d.id}];
      }
      trace := trace + [Ack(d)];
      assert Now() == t;
    }

    /** Hands out again whatever has been pending for at least minIdle, in any
        order, each once and with its delivery count raised. */
    method ReclaimIdle(shard: nat, minIdle: int, now: int) returns (out: seq<Delivery>)
      requires Valid() && Enabled(cfg, Now(), Reclaim(shard, minIdle, now))
      modifies this
      ensures Valid() && trace == old(trace) + [Reclaim(shard, minIdle, now)]
      ensures pending == old(pending)[shard := Aged(old(pending)[shard], minIdle, now)]
      ensures forall d :: d in out <==> Redelivered(old(pending)[shard], minIdle, now, d)
      ensures DistinctIds(out)
    {
      hide Inv, Schedule, Run, Start, Do, Enabled, Shaped, At, Unacked, Aged, ShardOf;
      RunSnoc(cfg, Start(cfg), trace, Reclaim(shard, minIdle, now));
      ghost var t := Do(cfg, Now(), Reclaim(shard, minIdle, now));
      ReclaimIs(cfg, Now(), shard, minIdle, now);
      var aged;
      aged, out := AgeAll(pending[shard], minIdle, now);
      pending := pending[shard := aged];
      trace := trace + [Reclaim(shard, minIdle, now)];
      assert Now() == t;
    }

    /** What publishers and pumps manage to do while the pending tables are locked and
        i shards have been read. */
    method MeanwhileLocked(actions: seq<Action>, ghost i: nat)
      requires Valid() && i <= |chans| == |pending|
      modifies this
      ensures Valid() && |chans| == |old(chans)| && pending == old(pending) && i <= |chans| == |pending|
      ensures Within(old(Now()), Now(), Unread(old(Now()), i), Unread(Now(), i))
    {
      hide Inv, Run, Schedule, Start, Do, Enabled, Shaped, Total, TotalPending, Unread;
      for n := 0 to |actions|
        invariant Valid() && |chans| == |old(chans)| && pending == old(pending) && i <= |chans| == |pending|
        invariant Within(old(Now()), Now(), Unread(old(Now()), i), Unread(Now(), i))
      {
        if Lockless(actions[n]) && May(actions[n]) {
          MayIs(actions[n]);
          LocklessShifts(cfg, Now(), actions[n], i);
          Step(actions[n]);
        }
      }
    }

    /** The backlog over all shards, read one by one while others send and take: off by
        no more than what they sent and took, and exact if they did neither. */
    method Depth(others: nat -> seq<Action>) returns (total: int)
      requires Valid()
      modifies this
      ensures Valid()
      ensures Within(old(Now()), Now(), Total(old(sent)) - |old(acked)| - |old(hands)|, total)
    {
      hide Inv, Run, Schedule, Start, Total, TotalPending, Unread, Within;
      ghost var s := Now();
      BacklogUnread(cfg, s);
      total := 0;
      var n := |chans|;
      for i := 0 to n
        invariant Valid() && n == |chans| == |pending|
        invariant Within(s, Now(), Unread(s, 0), total + Unread(Now(), i))
      {
        total := ReadNext(others(i), i, total, s, Unread(s, 0));
      }
      UnreadEnds(Now());
    }

    method ReadNext(actions: seq<Action>, i: nat, sum: int, ghost s: State, ghost x: int) returns (total: int)
      requires Valid() && i < |chans| == |pending| && Within(s, Now(), x, sum + Unread(Now(), i))
      modifies this
      ensures Valid() && |chans| == |pending| == |old(chans)| && Within(s, Now(), x, total + Unread(Now(), i + 1))
    {
      hide Inv, Run, Schedule, Start, Total, TotalPending, Unread, Within;
      ghost var t := Now();
      MeanwhileLocked(actions, i);
      WithinTrans(s, t, Now(), x, sum, Unread(t, i), Unread(Now(), i));
      ReadShard(Now(), i);
      total := sum + |chans[i]| + |pending[i]|;
    }
  }

  lemma BacklogUnread(cfg: Config, s: State)
    requires Inv(cfg, s)
    ensures |s.chans| == |s.pending| && Unread(s, 0) == Total(s.sent) - |s.acked| - |s.hands|
    ensures Within(s, s, Unread(s, 0), Unread(s, 0))
  {
    InvShaped(cfg, s);
    assert Counted(s);
    UnreadEnds(s);
    hide Inv, Total, TotalPending, Unread;
  }

  lemma WithinTrans(s: State, t: State, u: State, x: int, n: int, y: int, z: int)
    requires Within(s, t, x, n + y) && Within(t, u, y, z)
    ensures Within(s, u, x, n + z)
  {
    hide Total;
  }
}
