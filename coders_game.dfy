/**
 * The support code of the Sleeping Coders assignment fixture: the turn
 * order of the players, the game's sleeping-coder slots and end-of-game
 * check, and the expansion of a deck structure into cards.
 *
 * Players, cards and decks are defined by the assignment's own solution,
 * which is not part of this model: players and cards are type parameters,
 * a player's `has_won()` is a function argument, and the pickup pile is
 * represented only by its card count.
 */
module SleepingCoders {
  import opened Wrappers

  const ZeroDivision: string := "ZeroDivisionError"
  const IndexError: string := "IndexError"

  /**
   * Python's `x % n` for a positive n: the representative of x in [0, n).
   * Written as repeated addition or subtraction of n.
   */
  function Wrap(x: int, n: int): (r: int)
    requires n > 0
    ensures 0 <= r < n
    decreases if x < 0 then n - x else x
  {
    if 0 <= x < n then x
    else if x < 0 then Wrap(x + n, n)
    else Wrap(x - n, n)
  }

  lemma WrapShift(x: int, n: int)
    requires n > 0
    ensures Wrap(x + n, n) == Wrap(x, n)
  {
  }

  /** Wrapping is compatible with addition: only the class of x modulo n matters. */
  lemma {:induction false} WrapAdd(x: int, y: int, n: int)
    requires n > 0
    ensures Wrap(Wrap(x, n) + y, n) == Wrap(x + y, n)
    decreases if x < 0 then n - x else x
  {
    if x < 0 {
      WrapAdd(x + n, y, n);
      WrapShift(x + y, n);
    } else if x >= n {
      WrapAdd(x - n, y, n);
      WrapShift(x - n + y, n);
    }
  }

  /** `count if direction else -count`. */
  function Offset(direction: bool, count: int): int
  {
    if direction then count else -count
  }

  /** The order of turns amongst the players. */
  class TurnManager<P> {
    var players: seq<P>
    var direction: bool
    var location: int
    var max: int

    /** The location is a valid index whenever there are players. */
    predicate Valid()
      reads this
    {
      max == |players| && (max > 0 ==> 0 <= location < max)
    }

    /** `__init__`: the first player's turn, moving forward. */
    constructor(players: seq<P>)
      ensures Valid()
      ensures this.players == players && direction && location == 0 && max == |players|
    {
      this.players := players;
      direction := true;
      location := 0;
      max := |players|;
    }

    /** `current()`: the player whose turn it is; an IndexError without players. */
    function Current(): (r: Result<P, string>)
      reads this
      requires Valid()
      ensures r.Success? <==> max > 0
      ensures r.Success? ==> r.value == players[location]
    {
      if max == 0 then Failure(IndexError) else Success(players[location])
    }

    /** `peak(count)`: the player count turns ahead in the current direction. */
    function Peak(count: int): (r: Result<P, string>)
      reads this
      requires Valid()
      ensures r.Success? <==> max > 0
      ensures r.Success? ==> r.value == players[Wrap(location + Offset(direction, count), max)]
    {
      if max == 0 then Failure(ZeroDivision) else Success(players[Wrap(location + Offset(direction, count), max)])
    }

    /** `reverse()`: toggles the direction and nothing else. */
    method Reverse()
      modifies this
      ensures Valid() == old(Valid())
      ensures direction == !old(direction)
      ensures players == old(players) && location == old(location) && max == old(max)
    {
      direction := !direction;
    }

    /**
     * `skip(count)`: moves count + 1 places in the current direction and
     * returns the new current player, which is the one `peak(count + 1)`
     * showed. Without players the location moves and then the modulo
     * divides by zero.
     */
    method Skip(count: int) returns (r: Result<P, string>)
      requires Valid()
      modifies this
      ensures Valid()
      ensures players == old(players) && direction == old(direction) && max == old(max)
      ensures max > 0 ==> location == Wrap(old(location) + Offset(direction, count + 1), max)
      ensures max > 0 ==> r == old(Peak(count + 1)) && r == Current()
      ensures max == 0 ==> location == old(location) + Offset(direction, count + 1) && r == Failure(ZeroDivision)
    {
      location := location + Offset(direction, count + 1);
      if max == 0 {
        return Failure(ZeroDivision);
      }
      location := Wrap(location, max);
      r := Success(players[location]);
    }

    /** `next()`: `skip(0)`, one place on. */
    method Next() returns (r: Result<P, string>)
      requires Valid()
      modifies this
      ensures Valid()
      ensures players == old(players) && direction == old(direction) && max == old(max)
      ensures max > 0 ==> location == Wrap(old(location) + Offset(direction, 1), max)
      ensures max > 0 ==> r == old(Peak(1)) && r == Current()
      ensures max == 0 ==> location == old(location) + Offset(direction, 1) && r == Failure(ZeroDivision)
    {
      r := Skip(0);
    }
  }

  /** `peak(0)` is the current player. */
  lemma PeakZero<P>(t: TurnManager<P>)
    requires t.Valid() && t.max > 0
    ensures t.Peak(0) == t.Current()
  {
  }

  /** `peak(-1)` looks one place backwards: the player before the current one in the direction of play. */
  lemma PeakBackwards<P>(t: TurnManager<P>)
    requires t.Valid() && t.max > 0
    ensures t.direction ==> t.Peak(-1) == Success(t.players[if t.location == 0 then t.max - 1 else t.location - 1])
    ensures !t.direction ==> t.Peak(-1) == Success(t.players[if t.location == t.max - 1 then 0 else t.location + 1])
  {
    if t.direction && t.location == 0 {
      assert Wrap(t.location + Offset(t.direction, -1), t.max) == Wrap(t.max - 1, t.max);
    }
    if !t.direction && t.location == t.max - 1 {
      assert Wrap(t.location + Offset(t.direction, -1), t.max) == Wrap(0, t.max);
    }
  }

  /** A game's `skip()` followed by `next_player()` moves the turn two places on. */
  lemma {:induction false} SkipThenNext(location: int, direction: bool, n: int)
    requires n > 0
    ensures Wrap(Wrap(location + Offset(direction, 1), n) + Offset(direction, 1), n) == Wrap(location + Offset(direction, 2), n)
  {
    WrapAdd(location + Offset(direction, 1), Offset(direction, 1), n);
    assert location + Offset(direction, 1) + Offset(direction, 1) == location + Offset(direction, 2);
  }

  /** Going all the way round the table returns to the same player. */
  lemma FullRound<P>(t: TurnManager<P>)
    requires t.Valid() && t.max > 0
    ensures t.Peak(t.max) == t.Current()
  {
    WrapShift(t.location, t.max);
    if !t.direction {
      assert t.location + Offset(t.direction, t.max) + t.max == t.location;
      WrapShift(t.location - t.max, t.max);
    }
  }

  /**
   * Skipping count places, reversing, and skipping count places again
   * comes back to the location one started from.
   */
  lemma {:induction false} SkipReverseSkip(location: int, direction: bool, count: int, n: int)
    requires n > 0 && 0 <= location < n
    ensures Wrap(Wrap(location + Offset(direction, count), n) + Offset(!direction, count), n) == location
  {
    WrapAdd(location + Offset(direction, count), Offset(!direction, count), n);
    assert location + Offset(direction, count) + Offset(!direction, count) == location;
  }

  /** A Python list index: negative slots count from the end. */
  function PyIndex(slot: int, n: nat): (r: Option<nat>)
    ensures r.Some? ==> r.value < n
    ensures r.None? <==> slot >= n || slot + n < 0
    ensures r.Some? && slot >= 0 ==> r.value == slot
    ensures r.Some? && slot < 0 ==> r.value + (-slot) == n
  {
    if 0 <= slot < n then Some(slot)
    else if 0 <= slot + n && slot < 0 then Some(slot + n)
    else None
  }

  /** `xs[slot]`. */
  function GetAt<C>(xs: seq<C>, slot: int): (r: Result<C, string>)
    ensures r.Success? <==> PyIndex(slot, |xs|).Some?
  {
    match PyIndex(slot, |xs|)
    case None => Failure(IndexError)
    case Some(i) => Success(xs[i])
  }

  /** `xs[slot] = v`. */
  function SetAt<C>(xs: seq<C>, slot: int, v: C): (r: Result<seq<C>, string>)
    ensures r.Success? <==> PyIndex(slot, |xs|).Some?
    ensures r.Success? ==> |r.value| == |xs|
  {
    match PyIndex(slot, |xs|)
    case None => Failure(IndexError)
    case Some(i) => Success(xs[i := v])
  }

  /**
   * Setting a slot and reading it back gives the card just set; reading
   * any slot naming another position gives what was there before.
   */
  lemma SetThenGet<C>(xs: seq<C>, slot: int, v: C, other: int)
    requires SetAt(xs, slot, v).Success?
    ensures GetAt(SetAt(xs, slot, v).value, slot) == Success(v)
    ensures PyIndex(other, |xs|) != PyIndex(slot, |xs|) ==>
      GetAt(SetAt(xs, slot, v).value, other) == GetAt(xs, other)
  {
  }

  /** Slots -1 and n-1 are the same slot. */
  lemma LastSlotAlias<C>(xs: seq<C>, v: C)
    requires xs != []
    ensures GetAt(SetAt(xs, -1, v).value, |xs| - 1) == Success(v)
  {
  }

  /** The last player, in order, among the first n, for whom hasWon holds. */
  function LastWinner<P>(players: seq<P>, hasWon: P -> bool, n: nat): (r: Option<nat>)
    requires n <= |players|
    ensures r.Some? ==> r.value < n && hasWon(players[r.value])
    ensures r.Some? ==> forall k :: r.value < k < n ==> !hasWon(players[k])
    ensures r.None? ==> forall k :: 0 <= k < n ==> !hasWon(players[k])
  {
    if n == 0 then None
    else if hasWon(players[n - 1]) then Some(n - 1)
    else LastWinner(players, hasWon, n - 1)
  }

  /** A game of Sleeping Coders. */
  class CodersGame<P, C> {
    var coders: seq<C>
    var players: seq<P>
    var turns: TurnManager<P>
    var isOver: bool
    var winner: Option<P>
    var action: Option<string>

    predicate Valid()
      reads this, turns
    {
      turns.Valid()
    }

    /** `__init__`: no winner, no action, turns from the first player. */
    constructor(coders: seq<C>, players: seq<P>)
      ensures Valid() && fresh(turns)
      ensures this.coders == coders && this.players == players
      ensures turns.players == players && turns.location == 0 && turns.direction
      ensures !isOver && winner == None && action == None
    {
      this.coders := coders;
      this.players := players;
      turns := new TurnManager(players);
      isOver := false;
      winner := None;
      action := None;
    }

    /** `get_sleeping_coder(slot)`. */
    function GetSleepingCoder(slot: int): (r: Result<C, string>)
      reads this
      ensures r.Success? <==> PyIndex(slot, |coders|).Some?
      ensures r.Success? ==> r.value == coders[PyIndex(slot, |coders|).value]
    {
      GetAt(coders, slot)
    }

    /** `set_sleeping_coder(slot, card)`: only that slot changes. */
    method SetSleepingCoder(slot: int, card: C) returns (error: Option<string>)
      modifies this
      ensures error.None? <==> SetAt(old(coders), slot, card).Success?
      ensures error.None? ==> coders == SetAt(old(coders), slot, card).value
      ensures error.Some? ==> coders == old(coders)
      ensures players == old(players) && turns == old(turns) && isOver == old(isOver)
      ensures winner == old(winner) && action == old(action)
    {
      var i := PyIndex(slot, |coders|);
      if i.None? {
        return Some(IndexError);
      }
      coders := coders[i.value := card];
      return None;
    }

    /** `current_player()`. */
    function CurrentPlayer(): (r: Result<P, string>)
      reads this, turns
      requires Valid()
      ensures r == turns.Current()
      ensures r.Success? <==> turns.players != []
      ensures r.Success? ==> r.value == turns.players[turns.location]
    {
      turns.Current()
    }

    /** `next_player()`: the turn passes one place on; without players, ZeroDivisionError. */
    method NextPlayer() returns (r: Result<P, string>)
      requires Valid()
      modifies turns
      ensures Valid()
      ensures turns.players == old(turns.players) && turns.direction == old(turns.direction) && turns.max == old(turns.max)
      ensures turns.max > 0 ==> turns.location == Wrap(old(turns.location) + Offset(turns.direction, 1), turns.max)
      ensures turns.max > 0 ==> r == old(turns.Peak(1)) && r == CurrentPlayer()
      ensures turns.max == 0 ==> turns.location == old(turns.location) + Offset(turns.direction, 1)
      ensures turns.max == 0 ==> r == Failure(ZeroDivision)
    {
      r := turns.Next();
    }

    /**
     * `skip()`: the turn moves one place on, so the player who would have
     * played next is passed over by the following `next_player()`. Python
     * returns nothing; the ZeroDivisionError of a game without players is
     * the error returned here.
     */
    method Skip() returns (error: Option<string>)
      requires Valid()
      modifies turns
      ensures Valid()
      ensures turns.players == old(turns.players) && turns.direction == old(turns.direction) && turns.max == old(turns.max)
      ensures turns.max > 0 ==> turns.location == Wrap(old(turns.location) + Offset(turns.direction, 1), turns.max)
      ensures turns.max > 0 ==> error == None && CurrentPlayer() == old(turns.Peak(1))
      ensures turns.max == 0 ==> turns.location == old(turns.location) + Offset(turns.direction, 1)
      ensures turns.max == 0 ==> error == Some(ZeroDivision)
    {
      var r := turns.Skip(0);
      error := if r.Failure? then Some(r.error) else None;
    }

    /**
     * `skip()` followed by `next_player()`: the turn lands two places on,
     * on the player `peak(2)` showed before the skip.
     */
    method SkipThenNextPlayer() returns (r: Result<P, string>)
      requires Valid()
      modifies turns
      ensures Valid()
      ensures turns.players == old(turns.players) && turns.direction == old(turns.direction) && turns.max == old(turns.max)
      ensures turns.max > 0 ==> turns.location == Wrap(old(turns.location) + Offset(turns.direction, 2), turns.max)
      ensures turns.max > 0 ==> r == old(turns.Peak(2)) && r == CurrentPlayer()
      ensures turns.max == 0 ==> r == Failure(ZeroDivision)
    {
      var error := Skip();
      r := NextPlayer();
      if turns.max > 0 {
        SkipThenNext(old(turns.location), turns.direction, turns.max);
      }
    }

    /** `reverse()`. */
    method Reverse()
      requires Valid()
      modifies turns
      ensures Valid()
      ensures turns.direction == !old(turns.direction) && turns.location == old(turns.location)
      ensures turns.players == old(turns.players)
    {
      turns.Reverse();
    }

    /** `get_action()`. */
    function GetAction(): (r: Option<string>)
      reads this
    {
      action
    }

    /** `set_action(action)`: a later `get_action()` returns it. */
    method SetAction(a: string)
      modifies this
      ensures GetAction() == Some(a)
      ensures coders == old(coders) && players == old(players) && turns == old(turns)
      ensures isOver == old(isOver) && winner == old(winner)
    {
      action := Some(a);
    }

    /**
     * `is_over()`: true at once when the pickup pile is empty (without
     * recording it); otherwise every player who has won becomes the winner
     * in turn, so the last one in order stays, and the game, once over,
     * stays over.
     */
    method IsOver(pileAmount: nat, hasWon: P -> bool) returns (r: bool)
      modifies this
      ensures pileAmount == 0 ==> r && isOver == old(isOver) && winner == old(winner)
      ensures pileAmount > 0 ==> r == isOver
      ensures pileAmount > 0 ==> (isOver <==> old(isOver) || LastWinner(players, hasWon, |players|).Some?)
      ensures pileAmount > 0 ==> (winner ==
        match LastWinner(players, hasWon, |players|)
        case Some(k) => Some(players[k])
        case None => old(winner))
      ensures coders == old(coders) && players == old(players) && turns == old(turns) && action == old(action)
    {
      if pileAmount == 0 {
        return true;
      }
      for i := 0 to |players|
        invariant players == old(players) && coders == old(coders) && turns == old(turns) && action == old(action)
        invariant isOver <==> old(isOver) || LastWinner(players, hasWon, i).Some?
        invariant winner == match LastWinner(players, hasWon, i) case Some(k) => Some(players[k]) case None => old(winner)
      {
        if hasWon(players[i]) {
          winner := Some(players[i]);
          isOver := true;
        }
      }
      return isOver;
    }
  }

  /** A card as `build_deck` constructs it: its class, and the value passed to the constructor if any. */
  datatype Card<V> = Card(cls: string, arg: Option<V>)

  /** The cards one structure entry yields, one per value. */
  function Row<V>(cls: string, values: seq<V>, rangeCards: set<string>): (r: seq<Card<V>>)
    ensures |r| == |values|
    ensures forall k :: 0 <= k < |r| ==> r[k].cls == cls
    ensures forall k :: 0 <= k < |r| ==> r[k].arg == if cls in rangeCards then Some(values[k]) else None
  {
    seq(|values|, k requires 0 <= k < |values| => Card(cls, if cls in rangeCards then Some(values[k]) else None))
  }

  /** The whole deck: the rows of the structure, in order. */
  function Expand<V>(structure: seq<(string, seq<V>)>, rangeCards: set<string>): seq<Card<V>>
  {
    if structure == [] then []
    else
      var last := structure[|structure| - 1];
      Expand(structure[..|structure| - 1], rangeCards) + Row(last.0, last.1, rangeCards)
  }

  /** The number of values in the first n entries of the structure. */
  function Total<V>(structure: seq<(string, seq<V>)>, n: nat): nat
    requires n <= |structure|
  {
    if n == 0 then 0 else Total(structure, n - 1) + |structure[n - 1].1|
  }

  /**
   * `build_deck(structure, range_cards)`: for each entry, one new card of
   * the entry card's class per value; classes in range_cards get the value.
   */
  method BuildDeck<V>(structure: seq<(string, seq<V>)>, rangeCards: set<string>) returns (deck: seq<Card<V>>)
    ensures deck == Expand(structure, rangeCards)
  {
    deck := [];
    for i := 0 to |structure|
      invariant deck == Expand(structure[..i], rangeCards)
    {
      var (cls, values) := structure[i];
      ghost var before := deck;
      for j := 0 to |values|
        invariant deck == before + Row(cls, values[..j], rangeCards)
      {
        var card := if cls !in rangeCards then Card(cls, None) else Card(cls, Some(values[j]));
        assert Row(cls, values[..j + 1], rangeCards) == Row(cls, values[..j], rangeCards) + [card];
        deck := deck + [card];
      }
      assert values[..|values|] == values;
      assert structure[..i + 1][..i] == structure[..i];
    }
    assert structure[..|structure|] == structure;
  }

  /** The deck has one card per value, in structure order. */
  lemma {:induction false} DeckLength<V>(structure: seq<(string, seq<V>)>, rangeCards: set<string>)
    ensures |Expand(structure, rangeCards)| == Total(structure, |structure|)
    decreases |structure|
  {
    if structure != [] {
      var init := structure[..|structure| - 1];
      DeckLength(init, rangeCards);
      TotalAgree(init, structure, |structure| - 1);
    }
  }

  /** Total depends only on the entries it counts. */
  lemma {:induction false} TotalAgree<V>(xs: seq<(string, seq<V>)>, ys: seq<(string, seq<V>)>, n: nat)
    requires n <= |xs| && n <= |ys| && xs[..n] == ys[..n]
    ensures Total(xs, n) == Total(ys, n)
    decreases n
  {
    if n > 0 {
      assert xs[n - 1] == xs[..n][n - 1] == ys[..n][n - 1] == ys[n - 1];
      assert xs[..n - 1] == xs[..n][..n - 1] == ys[..n][..n - 1] == ys[..n - 1];
      TotalAgree(xs, ys, n - 1);
    }
  }

  /**
   * The j-th value of entry i becomes the card at position
   * Total(structure, i) + j: built with that value for a range class,
   * without arguments otherwise.
   */
  lemma {:induction false} DeckCard<V>(structure: seq<(string, seq<V>)>, rangeCards: set<string>, i: nat, j: nat)
    requires i < |structure| && j < |structure[i].1|
    ensures Total(structure, i) + j < |Expand(structure, rangeCards)|
    ensures Expand(structure, rangeCards)[Total(structure, i) + j] ==
      Card(structure[i].0, if structure[i].0 in rangeCards then Some(structure[i].1[j]) else None)
    decreases |structure|
  {
    var n := |structure|;
    var init := structure[..n - 1];
    DeckLength(init, rangeCards);
    TotalAgree(init, structure, n - 1);
    if i < n - 1 {
      assert init[i] == structure[i];
      assert init[..i] == structure[..i];
      TotalAgree(init, structure, i);
      DeckCard(init, rangeCards, i, j);
    }
  }
}
