/** The `Card` value type: an immutable (suit, rank) pair with structural
    equality, a hash that depends only on (rank, suit), a strict total order
    (rank first, suit as the tie-break) and two string forms. */
module Cards {
  import opened Wrappers
  import opened Ascii
  import opened CardEnums

  /** A card. The constructor takes the suit first, as the source does. */
  datatype Card = Card(suit: Suit, rank: Rank)

  /** The Python values the card operations can be handed. The source checks
      the kind of its arguments at run time; this datatype gives those checks
      something to decide on. */
  datatype Value =
    | SuitObj(suit: Suit)
    | RankObj(rank: Rank)
    | CardObj(card: Card)
    | IntObj(number: int)
    | StrObj(text: string)
    | NoneObj

  /** The exception the constructor raises. */
  datatype Error = ValueError(message: string)

  const InvalidSuitOrRank: string := "Invalid suit or rank"

  // ---------------------------------------------------------------------
  // Construction and accessors

  /** `Card(suit, rank)`: fails unless `suit` is a `CardSuit` and `rank` a
      `CardRank`; otherwise the card stores both unchanged, and the `suit`
      and `rank` accessors give them back. */
  function NewCard(suit: Value, rank: Value): (r: Result<Card, Error>)
    ensures r.Success? <==> suit.SuitObj? && rank.RankObj?
    ensures r.Success? ==> r.value.suit == suit.suit && r.value.rank == rank.rank
    ensures r.Failure? ==> r.error == ValueError(InvalidSuitOrRank)
  {
    if !suit.SuitObj? || !rank.RankObj? then Failure(ValueError(InvalidSuitOrRank))
    else Success(Card(suit.suit, rank.rank))
  }

  /** Passing the rank first and the suit second is rejected: the order of
      the constructor's parameters matters. */
  lemma SwappedArgumentsRejected(s: Suit, r: Rank)
    ensures NewCard(RankObj(r), SuitObj(s)) == Failure(ValueError(InvalidSuitOrRank))
  {
  }

  /** Construction from a suit and a rank succeeds and yields exactly the
      pair `Card(s, r)`. Cards are values here, so two cards built separately
      from the same arguments are one and the same value, and `Equal` holds
      between them because it is structural equality. */
  lemma SameArgumentsSameCard(s: Suit, r: Rank)
    ensures NewCard(SuitObj(s), RankObj(r)).Success?
    ensures NewCard(SuitObj(s), RankObj(r)).value == Card(s, r)
  {
  }

  // ---------------------------------------------------------------------
  // String forms

  /** `get_display_name()`, which is also `str()` of a card: the rank's
      `str()` form, " of ", the suit's -- that is, the rank's table entry,
      " of ", the suit's table entry. */
  function DisplayName(c: Card): (r: string)
    ensures r == RankLabel(c.rank) + " of " + SuitLabel(c.suit)
  {
    RankStrTable(c.rank);
    SuitStrTable(c.suit);
    RankStr(c.rank) + " of " + SuitStr(c.suit)
  }

  /** The first display name printed by the module's demonstration. */
  lemma DisplayNameAceOfSpades()
    ensures DisplayName(Card(Spades, Ace)) == "Ace of Spades"
  {
  }

  /** The second display name printed by the module's demonstration. */
  lemma DisplayNameAceOfHearts()
    ensures DisplayName(Card(Hearts, Ace)) == "Ace of Hearts"
  {
  }

  /** Distinct cards have distinct display names: the display name
      identifies the card. */
  lemma DisplayNameInjective(a: Card, b: Card)
    ensures DisplayName(a) == DisplayName(b) ==> a == b
  {
    if DisplayName(a) != DisplayName(b) {
      return;
    }
    CapitalizeAvoids(RankName(a.rank), ' ');
    CapitalizeAvoids(RankName(b.rank), ' ');
    JoinInjective(RankStr(a.rank), SuitStr(a.suit), RankStr(b.rank), SuitStr(b.suit), " of ");
    RankInjective(a.rank, b.rank);
    SuitInjective(a.suit, b.suit);
  }

  /** `repr()` of a card: "Card(", the rank's member name, ", ", the suit's
      member name, ")" -- rank first, although the constructor takes the
      suit first. */
  function Repr(c: Card): (r: string)
    ensures |r| == |RankName(c.rank)| + |SuitName(c.suit)| + 8
    ensures r[..5] == "Card(" && r[|r| - 1] == ')'
    ensures r[5..5 + |RankName(c.rank)|] == RankName(c.rank)
    ensures r[5 + |RankName(c.rank)|..7 + |RankName(c.rank)|] == ", "
    ensures r[7 + |RankName(c.rank)|..|r| - 1] == SuitName(c.suit)
  {
    "Card(" + RankName(c.rank) + ", " + SuitName(c.suit) + ")"
  }

  /** The representation of the Ace of Spades, rank first. */
  lemma ReprExample()
    ensures Repr(Card(Spades, Ace)) == "Card(ACE, SPADES)"
  {
  }

  /** Distinct cards have distinct representations. */
  lemma ReprInjective(a: Card, b: Card)
    requires Repr(a) == Repr(b)
    ensures a == b
  {
    assert Avoids(RankName(a.rank), ',') && Avoids(RankName(b.rank), ',');
    FramedJoinInjective("Card(", RankName(a.rank), SuitName(a.suit),
                        RankName(b.rank), SuitName(b.suit), ", ", ")");
    RankInjective(a.rank, b.rank);
    SuitInjective(a.suit, b.suit);
  }

  // ---------------------------------------------------------------------
  // Equality and hash

  /** `==` between two cards: same rank and same suit. */
  predicate Equal(a: Card, b: Card)
    ensures Equal(a, b) <==> a == b
  {
    a.rank == b.rank && a.suit == b.suit
  }

  /** `__eq__` handed any value: `None` (Python's `NotImplemented`) unless
      the other value is a card, and otherwise whether the two cards are the
      same card. */
  function Eq(self: Card, other: Value): (r: Option<bool>)
    ensures r.None? <==> !other.CardObj?
    ensures other.CardObj? ==> r == Some(self == other.card)
  {
    if !other.CardObj? then None else Some(Equal(self, other.card))
  }

  /** Card equality is an equivalence relation: reflexive and symmetric
      (transitivity follows from `Equal`'s contract). */
  lemma EqualIsSameCard(a: Card, b: Card)
    ensures Equal(a, a)
    ensures Equal(a, b) ==> Equal(b, a)
  {
  }

  /** `hash()` of a card: Python's hash of the tuple (rank, suit). The tuple
      hash is a parameter, since only its dependence on (rank, suit) matters.
      The hash agrees with `__eq__`: every value that `__eq__` calls equal to
      the card is a card whose (rank, suit) tuple hashes to the same number. */
  function Hash(tupleHash: (Rank, Suit) -> int, c: Card): (h: int)
    ensures forall o: Value :: Eq(c, o) == Some(true) ==>
      o.CardObj? && h == tupleHash(o.card.rank, o.card.suit)
  {
    tupleHash(c.rank, c.suit)
  }

  /** Equal cards have equal hashes, whatever the tuple hash is. */
  lemma HashConsistentWithEq(tupleHash: (Rank, Suit) -> int, a: Card, other: Value)
    requires Eq(a, other) == Some(true)
    ensures Hash(tupleHash, a) == Hash(tupleHash, other.card)
  {
  }

  // ---------------------------------------------------------------------
  // Ordering

  /** `<` between two cards: by rank value, and by suit value when the rank
      values are equal. */
  predicate Less(a: Card, b: Card)
    ensures Less(a, b) <==> Key(a) < Key(b)
  {
    if RankValue(a.rank) == RankValue(b.rank) then SuitValue(a.suit) < SuitValue(b.suit)
    else RankValue(a.rank) < RankValue(b.rank)
  }

  /** `>` between two cards: `a > b` is computed as `b < a`. */
  predicate Greater(a: Card, b: Card)
    ensures Greater(a, b) <==> Key(b) < Key(a)
  {
    Less(b, a)
  }

  /** `__lt__` handed any value: `None` (Python's `NotImplemented`) unless
      the other value is a card, and otherwise `Less`. */
  function Lt(self: Card, other: Value): (r: Option<bool>)
    ensures r.None? <==> !other.CardObj?
    ensures other.CardObj? ==> (r == Some(true) <==> Less(self, other.card))
  {
    if !other.CardObj? then None else Some(Less(self, other.card))
  }

  /** The position of a card in the order, from 0 (Two of Hearts) to 51
      (Ace of Spades): four positions per rank, one per suit. */
  function Key(c: Card): (k: int)
    ensures 0 <= k < 52
    ensures k / 4 + 2 == RankValue(c.rank) && k % 4 + 1 == SuitValue(c.suit)
  {
    4 * (RankValue(c.rank) - 2) + (SuitValue(c.suit) - 1)
  }

  /** The card at a position of the order, or `None` outside 0..51. With
      `KeyInjective` and `KeyRoundTrip` it shows that `Key` is a one-to-one
      correspondence between the cards and 0..51: there are exactly 52
      cards, one per (suit, rank) pair. */
  function CardAt(k: int): (r: Option<Card>)
    ensures r.Some? <==> 0 <= k < 52
    ensures r.Some? ==> Key(r.value) == k
  {
    if k < 0 || 52 <= k then None
    else
      var rank := RankFromValue(k / 4 + 2);
      var suit := SuitFromValue(k % 4 + 1);
      Some(Card(suit.value, rank.value))
  }

  /** Distinct cards have distinct positions, so the 4 x 13 cards fill the
      positions 0..51 one to one. */
  lemma KeyInjective(a: Card, b: Card)
    requires Key(a) == Key(b)
    ensures a == b
  {
    RankInjective(a.rank, b.rank);
    SuitInjective(a.suit, b.suit);
  }

  lemma KeyRoundTrip(c: Card)
    ensures CardAt(Key(c)) == Some(c)
  {
    KeyInjective(CardAt(Key(c)).value, c);
  }

  /** The rank decides when the ranks differ. */
  lemma RankIsPrimary(a: Card, b: Card)
    requires RankValue(a.rank) < RankValue(b.rank)
    ensures Less(a, b) && !Less(b, a)
  {
  }

  /** The suit decides only when the ranks are equal. */
  lemma SuitBreaksTies(a: Card, b: Card)
    requires a.rank == b.rank
    ensures Less(a, b) <==> SuitValue(a.suit) < SuitValue(b.suit)
  {
  }

  lemma LessIrreflexive(a: Card)
    ensures !Less(a, a)
  {
  }

  lemma LessTransitive(a: Card, b: Card, c: Card)
    requires Less(a, b) && Less(b, c)
    ensures Less(a, c)
  {
  }

  /** For two distinct cards exactly one of `a < b` and `b < a` holds; for
      equal cards neither does. */
  lemma LessTrichotomy(a: Card, b: Card)
    ensures a != b ==> (Less(a, b) <==> !Less(b, a))
    ensures a == b ==> !Less(a, b) && !Less(b, a)
  {
    if Key(a) == Key(b) {
      KeyInjective(a, b);
    }
  }

  /** `<` is a strict total order on cards: irreflexive, asymmetric,
      transitive, and connected. */
  lemma LessIsStrictTotalOrder()
    ensures forall a :: !Less(a, a)
    ensures forall a, b :: Less(a, b) ==> !Less(b, a)
    ensures forall a, b, c :: Less(a, b) && Less(b, c) ==> Less(a, c)
    ensures forall a, b :: a != b ==> Less(a, b) || Less(b, a)
  {
    forall a, b, c | Less(a, b) && Less(b, c)
      ensures Less(a, c)
    {
      LessTransitive(a, b, c);
    }
    forall a, b
      ensures a != b ==> Less(a, b) || Less(b, a)
    {
      LessTrichotomy(a, b);
    }
  }

  /** Exactly one of `<`, `>` holds between two distinct cards, and never
      both (that `>` is the converse of `<` is `Greater`'s contract together
      with `Less`'s). */
  lemma GreaterIsConverse(a: Card, b: Card)
    ensures a != b ==> (Greater(a, b) <==> !Less(a, b))
    ensures !(Greater(a, b) && Less(a, b))
  {
    LessTrichotomy(a, b);
  }

  /** The comparisons printed by the module's demonstration: the Ace of
      Spades is not below the Ace of Hearts, it is above it, and a card built
      twice is equal to itself. */
  lemma OrderExamples()
    ensures !Less(Card(Spades, Ace), Card(Hearts, Ace))
    ensures Greater(Card(Spades, Ace), Card(Hearts, Ace))
    ensures Eq(Card(Spades, Ace), CardObj(Card(Spades, Ace))) == Some(true)
  {
  }

  /** The Ace of Spades is the largest card and the Two of Hearts the smallest. */
  lemma Extremes(c: Card)
    ensures c != Card(Spades, Ace) ==> Less(c, Card(Spades, Ace))
    ensures c != Card(Hearts, Two) ==> Less(Card(Hearts, Two), c)
  {
    if Key(c) == 51 {
      KeyInjective(c, Card(Spades, Ace));
    }
    if Key(c) == 0 {
      KeyInjective(c, Card(Hearts, Two));
    }
  }
}
