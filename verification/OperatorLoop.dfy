/** runOperatorLoop of cmd/clawside-telegram-operator/operator.go: the getUpdates client and its offset. */
module OperatorLoop {

  datatype Update = Update(id: int, body: string)

  datatype Fetch = Failed | Fetched(updates: seq<Update>)

  /** One turn of the loop: whether the context is done before it, what the server answers, and whether
      the context ends during the failure handling. */
  datatype Poll = Poll(cancelled: bool, fetch: Fetch, stopped: bool)

  datatype Client = Client(offset: int, handled: seq<Update>)

  const FRESH := Client(0, [])

  function Handle(c: Client, u: Update): Client {
    Client(if u.id >= c.offset then u.id + 1 else c.offset, c.handled + [u])
  }

  function HandleAll(c: Client, updates: seq<Update>): Client
    decreases |updates|
  {
    if updates == [] then c else Handle(HandleAll(c, updates[..|updates| - 1]), updates[|updates| - 1])
  }

  /** The client after the polls, up to the first one that ends the loop. */
  function RunPolls(c: Client, polls: seq<Poll>): Client
    decreases |polls|
  {
    if polls == [] || polls[0].cancelled then c
    else match polls[0].fetch
      case Failed => if polls[0].stopped then c else RunPolls(c, polls[1..])
      case Fetched(updates) => RunPolls(HandleAll(c, updates), polls[1..])
  }

  /** The poll after which there is no other: the context is done before it, or during the wait after a
      failed fetch. A failed fetch alone is not an end. */
  predicate Ends(poll: Poll) {
    poll.cancelled || (poll.fetch.Failed? && poll.stopped)
  }

  /** Poll n is the first one that ends the loop, or there is none and n is the number of polls. */
  ghost predicate EndsAt(polls: seq<Poll>, n: int) {
    && 0 <= n <= |polls| && (n < |polls| ==> Ends(polls[n]))
    && forall k :: 0 <= k < n ==> !Ends(polls[k])
  }

  /** All the updates that the polls fetch, in order. */
  function Batches(polls: seq<Poll>): seq<Update> {
    if polls == [] then []
    else (if polls[0].fetch.Fetched? then polls[0].fetch.updates else []) + Batches(polls[1..])
  }

  /** The offset is past every update handled, and no further. */
  ghost predicate JustPast(offset: int, handled: seq<Update>) {
    && offset >= 0 && (forall u :: u in handled ==> u.id < offset)
    && (offset > 0 ==> exists u :: u in handled && u.id + 1 == offset)
  }

  /** runOperatorLoop, for the polls that one lifetime of the process makes. Every update of every fetch
      before the end is handled, whatever fetches fail in between. */
  method RunOperatorLoop(polls: seq<Poll>) returns (offset: int, handled: seq<Update>)
    ensures Client(offset, handled) == RunPolls(FRESH, polls)
    ensures JustPast(offset, handled)
    ensures forall n :: EndsAt(polls, n) ==> handled == Batches(polls[..n])
  {
    HandlesEveryBatch(polls);
    offset, handled := 0, [];
    var k := 0;
    while k < |polls|
      invariant k <= |polls|
      invariant RunPolls(FRESH, polls) == RunPolls(Client(offset, handled), polls[k..])
      invariant JustPast(offset, handled)
    {
      var poll := polls[k];
      assert polls[k..][0] == poll && polls[k..][1..] == polls[k + 1..];
      if poll.cancelled {
        return;
      }
      k := k + 1;
      if poll.fetch.Failed? {
        if poll.stopped {
          return;
        }
        continue;
      }
      var updates := poll.fetch.updates;
      ghost var before := Client(offset, handled);
      var i := 0;
      while i < |updates|
        invariant i <= |updates|
        invariant Client(offset, handled) == HandleAll(before, updates[..i])
        invariant JustPast(offset, handled)
      {
        var update := updates[i];
        PastOneMore(offset, handled, update);
        assert updates[..i + 1][..i] == updates[..i];
        if update.id >= offset {
          offset := update.id + 1;
        }
        handled := handled + [update];
        i := i + 1;
      }
      assert updates[..i] == updates;
    }
  }

  lemma PastOneMore(offset: int, handled: seq<Update>, u: Update)
    requires JustPast(offset, handled)
    ensures JustPast(if u.id >= offset then u.id + 1 else offset, handled + [u])
  {
    assert u in handled + [u];
    if offset > 0 {
      var v :| v in handled && v.id + 1 == offset;
      assert v in handled + [u];
    }
  }

  // ---------- against any server ----------

  lemma EndIsUnique(polls: seq<Poll>, m: int, n: int)
    requires EndsAt(polls, m) && EndsAt(polls, n)
    ensures m == n
  {
    hide Ends;
  }

  lemma EndsLater(polls: seq<Poll>, n: int)
    requires EndsAt(polls, n) && polls != [] && !Ends(polls[0])
    ensures n > 0 && EndsAt(polls[1..], n - 1)
    ensures Batches(polls[..n])
         == (if polls[0].fetch.Fetched? then polls[0].fetch.updates else []) + Batches(polls[1..][..n - 1])
  {
    hide Ends;
    assert polls[..n][1..] == polls[1..][..n - 1];
  }

  /** The client handles the updates of all fetches before the end, in order, and no others. */
  lemma {:induction false} HandlesBatches(c: Client, polls: seq<Poll>, n: int)
    requires EndsAt(polls, n)
    ensures RunPolls(c, polls).handled == c.handled + Batches(polls[..n])
    decreases |polls|
  {
    if polls == [] || Ends(polls[0]) {
      assert EndsAt(polls, 0);
      EndIsUnique(polls, n, 0);
    } else {
      EndsLater(polls, n);
      match polls[0].fetch
      case Failed => HandlesBatches(c, polls[1..], n - 1);
      case Fetched(updates) =>
        HandleAllGrows(c, updates);
        HandlesBatches(HandleAll(c, updates), polls[1..], n - 1);
    }
  }

  lemma HandlesEveryBatch(polls: seq<Poll>)
    ensures forall n :: EndsAt(polls, n) ==> RunPolls(FRESH, polls).handled == Batches(polls[..n])
  {
    forall n | EndsAt(polls, n)
      ensures RunPolls(FRESH, polls).handled == Batches(polls[..n])
    {
      HandlesBatches(FRESH, polls, n);
    }
  }

  /** The offset never decreases and is past every update handled so far, and nothing handled is forgotten. */
  lemma {:induction false} HandleAllGrows(c: Client, updates: seq<Update>)
    ensures HandleAll(c, updates).offset >= c.offset
    ensures HandleAll(c, updates).handled == c.handled + updates
    ensures forall u :: u in updates ==> u.id < HandleAll(c, updates).offset
    decreases |updates|
  {
    if updates != [] {
      HandleAllGrows(c, updates[..|updates| - 1]);
      assert updates == updates[..|updates| - 1] + [updates[|updates| - 1]];
    }
  }

  lemma {:induction false} OffsetNeverDecreases(c: Client, polls: seq<Poll>)
    requires forall u :: u in c.handled ==> u.id < c.offset
    ensures RunPolls(c, polls).offset >= c.offset
    ensures c.handled <= RunPolls(c, polls).handled
    ensures forall u :: u in RunPolls(c, polls).handled ==> u.id < RunPolls(c, polls).offset
    decreases |polls|
  {
    if polls != [] && !polls[0].cancelled {
      match polls[0].fetch
      case Failed => if !polls[0].stopped { OffsetNeverDecreases(c, polls[1..]); }
      case Fetched(updates) =>
        HandleAllGrows(c, updates);
        OffsetNeverDecreases(HandleAll(c, updates), polls[1..]);
    }
  }

  // ---------- against a server that honours the offset ----------

  /** The updates there are, ascending, with the non-negative ids that Telegram uses. */
  ghost predicate Ascending(stream: seq<Update>) {
    && (forall i :: 0 <= i < |stream| ==> stream[i].id >= 0)
    && (forall i, j :: 0 <= i < j < |stream| ==> stream[i].id < stream[j].id)
  }

  /** The answer is a stretch of the stream that starts at the first update with id >= offset. */
  ghost predicate Honours(stream: seq<Update>, offset: int, updates: seq<Update>) {
    exists a: nat, b: nat :: StretchFrom(stream, offset, updates, a, b)
  }

  ghost predicate StretchFrom(stream: seq<Update>, offset: int, updates: seq<Update>, a: nat, b: nat) {
    a <= b <= |stream| && updates == stream[a..b]
    && (forall i :: 0 <= i < a ==> stream[i].id < offset)
    && (a < |stream| ==> stream[a].id >= offset)
  }

  ghost predicate HonestServer(stream: seq<Update>, c: Client, polls: seq<Poll>)
    decreases |polls|
  {
    polls == [] || Ends(polls[0]) || match polls[0].fetch
      case Failed => HonestServer(stream, c, polls[1..])
      case Fetched(updates) =>
        Honours(stream, c.offset, updates) && HonestServer(stream, HandleAll(c, updates), polls[1..])
  }

  /** The client has handled the first h updates, each once and in order, and asks for the next one. */
  ghost predicate InStep(stream: seq<Update>, c: Client, h: nat) {
    h <= |stream| && c.handled == stream[..h] && c.offset == if h == 0 then 0 else stream[h - 1].id + 1
  }

  lemma {:induction false} HandleStretch(stream: seq<Update>, c: Client, h: nat, b: nat)
    requires Ascending(stream) && InStep(stream, c, h) && h <= b <= |stream|
    ensures InStep(stream, HandleAll(c, stream[h..b]), b)
    decreases b
  {
    if h < b {
      HandleStretch(stream, c, h, b - 1);
      assert stream[h..b][..b - 1 - h] == stream[h..b - 1];
      assert stream[..b] == stream[..b - 1] + [stream[b - 1]];
    } else {
      assert stream[h..b] == [];
    }
  }

  /** The offset separates what has been handled from the rest. */
  lemma OffsetSeparates(stream: seq<Update>, c: Client, h: nat)
    requires Ascending(stream) && InStep(stream, c, h)
    ensures forall k :: 0 <= k < |stream| ==> (stream[k].id < c.offset <==> k < h)
    ensures h < |stream| ==> stream[h].id >= c.offset
  {
    forall k | 0 <= k < |stream|
      ensures stream[k].id < c.offset <==> k < h
    {
      if h > 0 {
        assert k < h - 1 ==> stream[k].id < stream[h - 1].id;
        assert k > h - 1 ==> stream[h - 1].id < stream[k].id;
      }
    }
  }

  lemma StretchStartsNext(stream: seq<Update>, c: Client, h: nat, updates: seq<Update>, a: nat, b: nat)
    requires Ascending(stream) && InStep(stream, c, h) && StretchFrom(stream, c.offset, updates, a, b)
    ensures a == h
  {
    OffsetSeparates(stream, c, h);
  }

  /** Whatever mix of failed and successful fetches, with batches of any size: every update handled is
      handled once, in id order, and none is skipped. */
  lemma {:induction false} ExactlyOnceInOrder(stream: seq<Update>, c: Client, h: nat, polls: seq<Poll>)
    returns (h': nat)
    requires Ascending(stream) && InStep(stream, c, h) && HonestServer(stream, c, polls)
    ensures h <= h' && InStep(stream, RunPolls(c, polls), h')
    decreases |polls|
  {
    h' := h;
    if polls != [] && !polls[0].cancelled {
      match polls[0].fetch
      case Failed => if !polls[0].stopped { h' := ExactlyOnceInOrder(stream, c, h, polls[1..]); }
      case Fetched(updates) =>
        var a: nat, b: nat :| StretchFrom(stream, c.offset, updates, a, b);
        StretchStartsNext(stream, c, h, updates, a, b);
        HandleStretch(stream, c, h, b);
        h' := ExactlyOnceInOrder(stream, HandleAll(c, updates), b, polls[1..]);
    }
  }

  lemma FreshClientExactlyOnce(stream: seq<Update>, polls: seq<Poll>)
    requires Ascending(stream) && HonestServer(stream, FRESH, polls)
    ensures RunPolls(FRESH, polls).handled <= stream
    ensures forall i, j :: 0 <= i < j < |RunPolls(FRESH, polls).handled| ==>
              RunPolls(FRESH, polls).handled[i].id < RunPolls(FRESH, polls).handled[j].id
  {
    var h := ExactlyOnceInOrder(stream, FRESH, 0, polls);
  }

  lemma {:induction false} BatchIsIn(polls: seq<Poll>, k: nat)
    requires k < |polls| && polls[k].fetch.Fetched?
    ensures forall u :: u in polls[k].fetch.updates ==> u in Batches(polls)
  {
    if k > 0 {
      BatchIsIn(polls[1..], k - 1);
    }
  }

  /** The fetch brings the last update there is. */
  ghost predicate ReachesEnd(stream: seq<Update>, fetch: Fetch) {
    fetch.Fetched? && (stream == [] || stream[|stream| - 1] in fetch.updates)
  }

  /** Nothing is missed either: once a fetch before the end has brought the last update of the stream, all
      of the stream has been handled, each update once, however many fetches have failed. */
  lemma EveryUpdateIsHandled(stream: seq<Update>, polls: seq<Poll>, n: int, k: nat)
    requires Ascending(stream) && HonestServer(stream, FRESH, polls)
    requires EndsAt(polls, n) && k < n && ReachesEnd(stream, polls[k].fetch)
    ensures RunPolls(FRESH, polls).handled == stream
  {
    var h := ExactlyOnceInOrder(stream, FRESH, 0, polls);
    HandlesBatches(FRESH, polls, n);
    BatchIsIn(polls[..n], k);
    if stream != [] {
      var last := stream[|stream| - 1];
      assert last in stream[..h];
      var i :| 0 <= i < h && stream[i] == last;
      LastIsOnce(stream, i);
    }
  }

  lemma LastIsOnce(stream: seq<Update>, i: nat)
    requires Ascending(stream) && i < |stream| && stream[i] == stream[|stream| - 1]
    ensures i == |stream| - 1
  {
  }

  /** Exactly once is the server's doing: the loop itself handles whatever it is sent, so a server that
      ignores the offset has its updates handled as often as it repeats them. */
  lemma RepeatedUpdatesAreRepeated(updates: seq<Update>)
    ensures RunPolls(FRESH, [Poll(false, Fetched(updates), false), Poll(false, Fetched(updates), false)]).handled
         == updates + updates
  {
    var poll := Poll(false, Fetched(updates), false);
    var c := HandleAll(FRESH, updates);
    HandleAllGrows(FRESH, updates);
    HandleAllGrows(c, updates);
    assert [poll, poll][1..] == [poll] && [poll][1..] == [];
    assert RunPolls(c, [poll]) == HandleAll(c, updates);
  }
}
