/** The argument matcher of cmd/openclaw-mcp-smoke/registration.go: a greedy scan that must find every
    expected argument, in order, among the arguments of a registered server. */
module Registration {
  import opened Options
  import opened Text

  /** How a path is made absolute, for one fixed configuration directory. */
  type Resolver = string -> Option<string>

  const DB_FLAG := "--db"
  const DB_PREFIX := "--db="

  predicate PathArgMatches(candidate: string, expected: string, resolve: Resolver) {
    var c, e := Trim(candidate), Trim(expected);
    c != "" && e != "" && (c == e || (resolve(c).Some? && resolve(c) == resolve(e)))
  }

  /** Two paths match when neither is blank and they are the same text or resolve to the same place; so matching
      does not depend on which of them was expected. */
  lemma PathsMatchExactly(a: string, b: string, resolve: Resolver)
    ensures PathArgMatches(a, b, resolve) <==>
      && Trim(a) != "" && Trim(b) != ""
      && (Trim(a) == Trim(b) || exists place :: resolve(Trim(a)) == Some(place) && resolve(Trim(b)) == Some(place))
    ensures PathArgMatches(a, b, resolve) <==> PathArgMatches(b, a, resolve)
  {
    hide Trim;
  }

  /** An expected argument: a literal, or a database path that may be written in one slot or in two. */
  datatype Item = Literal(text: string) | Db(path: string)

  /** The items that a list of expected arguments stands for: blank arguments ask for nothing. */
  function Items(expected: seq<string>): seq<Item> {
    if expected == [] then []
    else
      var e := Trim(expected[0]);
      if e == "" then Items(expected[1..])
      else if e == DB_FLAG && |expected| > 1 then [Db(expected[1])] + Items(expected[2..])
      else if DB_PREFIX <= e then [Db(e[|DB_PREFIX|..])] + Items(expected[1..])
      else [Literal(e)] + Items(expected[1..])
  }

  /** The item is found in the w slots from slot i on. */
  predicate FoundAt(args: seq<string>, item: Item, i: nat, w: nat, resolve: Resolver) {
    match item
    case Literal(text) => w == 1 && i < |args| && Trim(args[i]) == text
    case Db(path) =>
      || (w == 2 && i + 1 < |args| && Trim(args[i]) == DB_FLAG && PathArgMatches(args[i + 1], path, resolve))
      || (w == 1 && i < |args| && DB_PREFIX <= Trim(args[i])
          && PathArgMatches(Trim(args[i])[|DB_PREFIX|..], path, resolve))
  }

  datatype Slot = Slot(start: nat, width: nat)

  /** The declarative meaning: the items occupy disjoint slots, in order. */
  ghost predicate Embedding(args: seq<string>, items: seq<Item>, slots: seq<Slot>, resolve: Resolver) {
    && |slots| == |items|
    && (forall k :: 0 <= k < |items| ==> FoundAt(args, items[k], slots[k].start, slots[k].width, resolve))
    && (forall j, k :: 0 <= j < k < |slots| ==> slots[j].start + slots[j].width <= slots[k].start)
  }

  // ---------- the same, one item at a time ----------

  ghost predicate Fits(args: seq<string>, items: seq<Item>, from: nat, resolve: Resolver) {
    items == []
    || exists i: nat, w: nat ::
         from <= i && FoundAt(args, items[0], i, w, resolve) && Fits(args, items[1..], i + w, resolve)
  }

  lemma {:induction false} FitsFromSlots(args: seq<string>, items: seq<Item>, slots: seq<Slot>, from: nat,
                                         resolve: Resolver)
    requires Embedding(args, items, slots, resolve) && (slots == [] || from <= slots[0].start)
    ensures Fits(args, items, from, resolve)
  {
    if items != [] {
      FitsFromSlots(args, items[1..], slots[1..], slots[0].start + slots[0].width, resolve);
    }
  }

  lemma {:induction false} SlotsFromFits(args: seq<string>, items: seq<Item>, from: nat, resolve: Resolver)
    returns (slots: seq<Slot>)
    requires Fits(args, items, from, resolve)
    ensures Embedding(args, items, slots, resolve) && forall k :: 0 <= k < |slots| ==> from <= slots[k].start
  {
    hide FoundAt;
    if items == [] {
      slots := [];
    } else {
      var i: nat, w: nat :| from <= i && FoundAt(args, items[0], i, w, resolve)
        && Fits(args, items[1..], i + w, resolve);
      var rest := SlotsFromFits(args, items[1..], i + w, resolve);
      slots := [Slot(i, w)] + rest;
      assert forall k :: 0 < k < |items| ==> items[k] == items[1..][k - 1] && slots[k] == rest[k - 1];
    }
  }

  lemma FitsIsEmbedding(args: seq<string>, items: seq<Item>, resolve: Resolver)
    ensures Fits(args, items, 0, resolve) <==> exists slots :: Embedding(args, items, slots, resolve)
  {
    if Fits(args, items, 0, resolve) {
      var slots := SlotsFromFits(args, items, 0, resolve);
    }
    forall slots | Embedding(args, items, slots, resolve)
      ensures Fits(args, items, 0, resolve)
    {
      FitsFromSlots(args, items, slots, 0, resolve);
    }
  }

  /** No occurrence of the item from slot `from` on ends before `end`. */
  ghost predicate EndsNoEarlier(args: seq<string>, item: Item, from: nat, end: nat, resolve: Resolver) {
    forall i: nat, w: nat :: from <= i && FoundAt(args, item, i, w, resolve) ==> end <= i + w
  }

  lemma FitsEarlier(args: seq<string>, items: seq<Item>, from: nat, later: nat, resolve: Resolver)
    requires from <= later && Fits(args, items, later, resolve)
    ensures Fits(args, items, from, resolve)
  {
    if items != [] {
      var i: nat, w: nat :| later <= i && FoundAt(args, items[0], i, w, resolve)
        && Fits(args, items[1..], i + w, resolve);
      assert from <= i;
    }
  }

  /** Why greed is safe: taking the occurrence that ends first leaves the most room for the rest. */
  lemma {:induction false} EarliestEndIsBest(args: seq<string>, items: seq<Item>, from: nat, i: nat, w: nat,
                                             resolve: Resolver)
    requires items != [] && from <= i && FoundAt(args, items[0], i, w, resolve)
    requires EndsNoEarlier(args, items[0], from, i + w, resolve)
    ensures Fits(args, items, from, resolve) <==> Fits(args, items[1..], i + w, resolve)
  {
    if Fits(args, items, from, resolve) {
      var j: nat, v: nat :| from <= j && FoundAt(args, items[0], j, v, resolve)
        && Fits(args, items[1..], j + v, resolve);
      FitsEarlier(args, items[1..], i + w, j + v, resolve);
    }
  }

  // ---------- the matcher ----------

  /** findRegistrationDBArg: the end of the occurrence of the database argument that ends first. */
  method FindDbArg(args: seq<string>, start: nat, path: string, resolve: Resolver) returns (next: nat, ok: bool)
    ensures ok ==> EndsNoEarlier(args, Db(path), start, next, resolve)
                   && exists i: nat, w: nat :: start <= i && i + w == next && FoundAt(args, Db(path), i, w, resolve)
    ensures !ok ==> forall i: nat, w: nat :: start <= i ==> !FoundAt(args, Db(path), i, w, resolve)
  {
    hide Trim;
    hide PathArgMatches;
    var i := start;
    while i < |args|
      invariant start <= i
      invariant forall j: nat, w: nat :: start <= j < i ==> !FoundAt(args, Db(path), j, w, resolve)
    {
      var arg := Trim(args[i]);
      if arg == DB_FLAG {
        if i + 1 >= |args| {
          assert !(DB_PREFIX <= arg);
          return 0, false;
        }
        assert !(DB_PREFIX <= arg);
        if PathArgMatches(args[i + 1], path, resolve) {
          assert FoundAt(args, Db(path), i, 2, resolve);
          return i + 2, true;
        }
      } else if DB_PREFIX <= arg && PathArgMatches(arg[|DB_PREFIX|..], path, resolve) {
        assert FoundAt(args, Db(path), i, 1, resolve);
        return i + 1, true;
      }
      i := i + 1;
    }
    return 0, false;
  }

  /** The scan for a literal. */
  method FindLiteral(args: seq<string>, start: nat, text: string, resolve: Resolver) returns (next: nat, ok: bool)
    ensures ok ==> EndsNoEarlier(args, Literal(text), start, next, resolve)
                   && start < next && FoundAt(args, Literal(text), next - 1, 1, resolve)
    ensures !ok ==> forall i: nat, w: nat :: start <= i ==> !FoundAt(args, Literal(text), i, w, resolve)
  {
    next := start;
    while next < |args|
      invariant start <= next
      invariant forall j: nat, w: nat :: start <= j < next ==> !FoundAt(args, Literal(text), j, w, resolve)
    {
      if Trim(args[next]) == text {
        return next + 1, true;
      }
      next := next + 1;
    }
    return next, false;
  }

  /** registrationArgsContainExpected is exact: it answers true if and only if the expected items can be
      placed, in order and without overlap, among the candidate arguments. */
  method ArgsContainExpected(candidateArgs: seq<string>, expectedArgs: seq<string>, resolve: Resolver)
    returns (ok: bool)
    ensures ok <==> exists slots :: Embedding(candidateArgs, Items(expectedArgs), slots, resolve)
  {
    hide Trim;
    hide FoundAt;
    hide Embedding;
    FitsIsEmbedding(candidateArgs, Items(expectedArgs), resolve);
    var candidateIndex, expectedIndex := 0, 0;
    while expectedIndex < |expectedArgs|
      invariant expectedIndex <= |expectedArgs|
      invariant Fits(candidateArgs, Items(expectedArgs), 0, resolve)
           <==> Fits(candidateArgs, Items(expectedArgs[expectedIndex..]), candidateIndex, resolve)
    {
      ghost var left := expectedArgs[expectedIndex..];
      assert left[1..] == expectedArgs[expectedIndex + 1..];
      var expected := Trim(expectedArgs[expectedIndex]);
      if expected == "" {
        expectedIndex := expectedIndex + 1;
        continue;
      }
      var next, found;
      if expected == DB_FLAG && expectedIndex + 1 < |expectedArgs| {
        assert left[2..] == expectedArgs[expectedIndex + 2..];
        next, found := FindDbArg(candidateArgs, candidateIndex, expectedArgs[expectedIndex + 1], resolve);
        expectedIndex := expectedIndex + 1;
      } else if DB_PREFIX <= expected {
        next, found := FindDbArg(candidateArgs, candidateIndex, expected[|DB_PREFIX|..], resolve);
      } else {
        next, found := FindLiteral(candidateArgs, candidateIndex, expected, resolve);
      }
      ghost var items := Items(left);
      if !found {
        NothingFits(candidateArgs, items, candidateIndex, resolve);
        return false;
      }
      assert items[1..] == Items(expectedArgs[expectedIndex + 1..]);
      TakeFirst(candidateArgs, items, candidateIndex, next, resolve);
      candidateIndex := next;
      expectedIndex := expectedIndex + 1;
    }
    return true;
  }

  lemma NothingFits(args: seq<string>, items: seq<Item>, from: nat, resolve: Resolver)
    requires items != [] && forall i: nat, w: nat :: from <= i ==> !FoundAt(args, items[0], i, w, resolve)
    ensures !Fits(args, items, from, resolve)
  {
  }

  lemma TakeFirst(args: seq<string>, items: seq<Item>, from: nat, next: nat, resolve: Resolver)
    requires items != [] && EndsNoEarlier(args, items[0], from, next, resolve)
    requires exists i: nat, w: nat :: from <= i && i + w == next && FoundAt(args, items[0], i, w, resolve)
    ensures Fits(args, items, from, resolve) <==> Fits(args, items[1..], next, resolve)
  {
    var i: nat, w: nat :| from <= i && i + w == next && FoundAt(args, items[0], i, w, resolve);
    EarliestEndIsBest(args, items, from, i, w, resolve);
  }
}
