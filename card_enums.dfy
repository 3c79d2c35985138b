/** The two enumerations of the card model, `CardSuit` and `CardRank`: each
    member has an integer value (its ordinal), an upper-case member name, and
    a human-readable form that is the capitalized name. */
module CardEnums {
  import opened Wrappers
  import opened Ascii

  // ---------------------------------------------------------------------
  // CardSuit

  datatype Suit = Hearts | Diamonds | Clubs | Spades

  /** The member's value: HEARTS = 1, DIAMONDS = 2, CLUBS = 3, SPADES = 4. */
  function SuitValue(s: Suit): (v: int)
    ensures 1 <= v <= 4
  {
    match s
    case Hearts => 1
    case Diamonds => 2
    case Clubs => 3
    case Spades => 4
  }

  /** Lookup of a member by value, `CardSuit(v)`: the member whose value is
      `v`, or `None` where Python raises an error for an unknown value. */
  function SuitFromValue(v: int): (r: Option<Suit>)
    ensures r.Some? <==> 1 <= v <= 4
    ensures r.Some? ==> SuitValue(r.value) == v
  {
    if v == 1 then Some(Hearts)
    else if v == 2 then Some(Diamonds)
    else if v == 3 then Some(Clubs)
    else if v == 4 then Some(Spades)
    else None
  }

  /** The member name, `CardSuit.X.name`. */
  function SuitName(s: Suit): (n: string)
    ensures IsUpperName(n)
  {
    match s
    case Hearts => "HEARTS"
    case Diamonds => "DIAMONDS"
    case Clubs => "CLUBS"
    case Spades => "SPADES"
  }

  /** Lookup of a member by name, `CardSuit[n]`, or `None` for an unknown name. */
  function SuitFromName(n: string): (r: Option<Suit>)
    ensures r.Some? ==> SuitName(r.value) == n
  {
    if n == "HEARTS" then Some(Hearts)
    else if n == "DIAMONDS" then Some(Diamonds)
    else if n == "CLUBS" then Some(Clubs)
    else if n == "SPADES" then Some(Spades)
    else None
  }

  /** `str()` of a suit: its name capitalized. */
  function SuitStr(s: Suit): (r: string)
    ensures |r| == |SuitName(s)| && r[0] == SuitName(s)[0]
    ensures forall i :: 1 <= i < |r| ==> IsLower(r[i]) && ToUpper(r[i]) == SuitName(s)[i]
  {
    CapitalizeUpperName(SuitName(s));
    Capitalize(SuitName(s))
  }

  lemma SuitValueRoundTrip(s: Suit)
    ensures SuitFromValue(SuitValue(s)) == Some(s)
  {
  }

  lemma SuitNameRoundTrip(s: Suit)
    ensures SuitFromName(SuitName(s)) == Some(s)
  {
  }

  /** Distinct suits have distinct values, names and display forms. */
  lemma SuitInjective(a: Suit, b: Suit)
    ensures SuitValue(a) == SuitValue(b) ==> a == b
    ensures SuitName(a) == SuitName(b) ==> a == b
    ensures SuitStr(a) == SuitStr(b) ==> a == b
  {
    SuitValueRoundTrip(a);
    SuitValueRoundTrip(b);
    SuitNameRoundTrip(a);
    SuitNameRoundTrip(b);
    if SuitStr(a) == SuitStr(b) {
      CapitalizeInjective(SuitName(a), SuitName(b));
    }
  }

  /** The suit order used as the tie-break: Hearts < Diamonds < Clubs < Spades. */
  lemma SuitOrder()
    ensures SuitValue(Hearts) < SuitValue(Diamonds) < SuitValue(Clubs) < SuitValue(Spades)
    ensures forall s :: s != Spades ==> SuitValue(s) < SuitValue(Spades)
  {
  }

  /** The human-readable form of each suit, written out as a table. */
  function SuitLabel(s: Suit): string
  {
    match s
    case Hearts => "Hearts"
    case Diamonds => "Diamonds"
    case Clubs => "Clubs"
    case Spades => "Spades"
  }

  /** `str()` of each suit is the table entry: "Hearts", "Diamonds",
      "Clubs", "Spades". */
  lemma SuitStrTable(s: Suit)
    ensures SuitStr(s) == SuitLabel(s)
  {
    match s
    case Hearts => CapitalizeIs("HEARTS", "Hearts");
    case Diamonds => CapitalizeIs("DIAMONDS", "Diamonds");
    case Clubs => CapitalizeIs("CLUBS", "Clubs");
    case Spades => CapitalizeIs("SPADES", "Spades");
  }

  // ---------------------------------------------------------------------
  // CardRank

  datatype Rank = Two | Three | Four | Five | Six | Seven | Eight | Nine | Ten
                | Jack | Queen | King | Ace

  /** The member's value: TWO = 2 up to TEN = 10, JACK = 11, QUEEN = 12,
      KING = 13, ACE = 14. */
  function RankValue(r: Rank): (v: int)
    ensures 2 <= v <= 14
  {
    match r
    case Two => 2
    case Three => 3
    case Four => 4
    case Five => 5
    case Six => 6
    case Seven => 7
    case Eight => 8
    case Nine => 9
    case Ten => 10
    case Jack => 11
    case Queen => 12
    case King => 13
    case Ace => 14
  }

  /** Lookup of a member by value, `CardRank(v)`, or `None` for an unknown value. */
  function RankFromValue(v: int): (r: Option<Rank>)
    ensures r.Some? <==> 2 <= v <= 14
    ensures r.Some? ==> RankValue(r.value) == v
  {
    if v == 2 then Some(Two)
    else if v == 3 then Some(Three)
    else if v == 4 then Some(Four)
    else if v == 5 then Some(Five)
    else if v == 6 then Some(Six)
    else if v == 7 then Some(Seven)
    else if v == 8 then Some(Eight)
    else if v == 9 then Some(Nine)
    else if v == 10 then Some(Ten)
    else if v == 11 then Some(Jack)
    else if v == 12 then Some(Queen)
    else if v == 13 then Some(King)
    else if v == 14 then Some(Ace)
    else None
  }

  /** The member name, `CardRank.X.name`. */
  function RankName(r: Rank): (n: string)
    ensures IsUpperName(n)
  {
    match r
    case Two => "TWO"
    case Three => "THREE"
    case Four => "FOUR"
    case Five => "FIVE"
    case Six => "SIX"
    case Seven => "SEVEN"
    case Eight => "EIGHT"
    case Nine => "NINE"
    case Ten => "TEN"
    case Jack => "JACK"
    case Queen => "QUEEN"
    case King => "KING"
    case Ace => "ACE"
  }

  /** Lookup of a member by name, `CardRank[n]`, or `None` for an unknown name. */
  function RankFromName(n: string): (r: Option<Rank>)
    ensures r.Some? ==> RankName(r.value) == n
  {
    if n == "TWO" then Some(Two)
    else if n == "THREE" then Some(Three)
    else if n == "FOUR" then Some(Four)
    else if n == "FIVE" then Some(Five)
    else if n == "SIX" then Some(Six)
    else if n == "SEVEN" then Some(Seven)
    else if n == "EIGHT" then Some(Eight)
    else if n == "NINE" then Some(Nine)
    else if n == "TEN" then Some(Ten)
    else if n == "JACK" then Some(Jack)
    else if n == "QUEEN" then Some(Queen)
    else if n == "KING" then Some(King)
    else if n == "ACE" then Some(Ace)
    else None
  }

  /** `str()` of a rank: its name capitalized. */
  function RankStr(r: Rank): (s: string)
    ensures |s| == |RankName(r)| && s[0] == RankName(r)[0]
    ensures forall i :: 1 <= i < |s| ==> IsLower(s[i]) && ToUpper(s[i]) == RankName(r)[i]
  {
    CapitalizeUpperName(RankName(r));
    Capitalize(RankName(r))
  }

  lemma RankValueRoundTrip(r: Rank)
    ensures RankFromValue(RankValue(r)) == Some(r)
  {
  }

  lemma RankNameRoundTrip(r: Rank)
    ensures RankFromName(RankName(r)) == Some(r)
  {
  }

  /** Distinct ranks have distinct values, names and display forms. */
  lemma RankInjective(a: Rank, b: Rank)
    ensures RankValue(a) == RankValue(b) ==> a == b
    ensures RankName(a) == RankName(b) ==> a == b
    ensures RankStr(a) == RankStr(b) ==> a == b
  {
    RankValueRoundTrip(a);
    RankValueRoundTrip(b);
    RankNameRoundTrip(a);
    RankNameRoundTrip(b);
    if RankStr(a) == RankStr(b) {
      CapitalizeInjective(RankName(a), RankName(b));
    }
  }

  /** Ace counts high: it outranks every other rank, and Two is the lowest. */
  lemma AceIsHighest(r: Rank)
    ensures r != Ace ==> RankValue(r) < RankValue(Ace)
    ensures r != Two ==> RankValue(Two) < RankValue(r)
  {
  }

  /** The rank order, the primary key of the card order: Two < Three < ...
      < King < Ace by value. With the bounds 2..14 of `RankValue` this fixes
      every value: TWO = 2, THREE = 3, ..., KING = 13, ACE = 14. */
  lemma RankOrder()
    ensures RankValue(Two) < RankValue(Three) < RankValue(Four) < RankValue(Five)
      < RankValue(Six) < RankValue(Seven) < RankValue(Eight) < RankValue(Nine)
      < RankValue(Ten) < RankValue(Jack) < RankValue(Queen) < RankValue(King)
      < RankValue(Ace)
  {
  }

  /** The human-readable form of each rank, written out as a table. */
  function RankLabel(r: Rank): string
  {
    match r
    case Two => "Two"
    case Three => "Three"
    case Four => "Four"
    case Five => "Five"
    case Six => "Six"
    case Seven => "Seven"
    case Eight => "Eight"
    case Nine => "Nine"
    case Ten => "Ten"
    case Jack => "Jack"
    case Queen => "Queen"
    case King => "King"
    case Ace => "Ace"
  }

  /** `str()` of each rank is the table entry: "Two" up to "Ten", then
      "Jack", "Queen", "King" and "Ace". */
  lemma RankStrTable(r: Rank)
    ensures RankStr(r) == RankLabel(r)
  {
    match r
    case Two => CapitalizeIs("TWO", "Two");
    case Three => CapitalizeIs("THREE", "Three");
    case Four => CapitalizeIs("FOUR", "Four");
    case Five => CapitalizeIs("FIVE", "Five");
    case Six => CapitalizeIs("SIX", "Six");
    case Seven => CapitalizeIs("SEVEN", "Seven");
    case Eight => CapitalizeIs("EIGHT", "Eight");
    case Nine => CapitalizeIs("NINE", "Nine");
    case Ten => CapitalizeIs("TEN", "Ten");
    case Jack => CapitalizeIs("JACK", "Jack");
    case Queen => CapitalizeIs("QUEEN", "Queen");
    case King => CapitalizeIs("KING", "King");
    case Ace => CapitalizeIs("ACE", "Ace");
  }
}
