# Playing-card value type

A Dafny model of the playing-card value type from a small Python exercise
(`oop_exam.py`). It covers:

- the two enumerations `CardSuit` (HEARTS = 1 up to SPADES = 4) and `CardRank`
  (TWO = 2 up to ACE = 14);
- the `__str__` of each enumeration, defined as the capitalized member name;
- the immutable `Card` built as `Card(suit, rank)`. The model includes its
  argument check, its accessors, `get_display_name` / `__str__`, `__repr__`,
  `__eq__`, `__hash__`, `__lt__` and `__gt__`.

Files:

- `wrappers.dfy` (module `Wrappers`): `Option` and `Result`.
- `ascii.dfy` (module `Ascii`): ASCII case mapping and Python's
  `str.capitalize`, with lemmas about splitting joined strings.
- `card_enums.dfy` (module `CardEnums`): `Suit` and `Rank`. Each has its
  value, its member name, lookup by value and by name, and its `str()` form.
- `card.dfy` (module `Cards`): `Card` and its operations.

How the Python features are modelled:

- Python checks argument kinds at run time. The model gives these checks a
  wider input type, `Cards.Value`, which can hold a suit, a rank, a card, an
  int, a str or `None`.
- The constructor's `ValueError("Invalid suit or rank")` becomes a `Failure`
  result.
- A comparison method that returns `NotImplemented` becomes `None`.
- On two cards, `==`, `<` and `>` are the predicates `Equal`, `Less` and
  `Greater`.
- `DisplayName` and `Repr` are the two string forms.
- `Hash` applies a tuple-hash function, which is a parameter, to
  (rank, suit).
- `Key` places each card at a position 0..51. This is an independent
  reference for the order: `<` is proved to be the order of positions.

Two facts about the code that a reader might expect otherwise:

- The constructor takes the suit first (`Card(suit, rank)`), while
  `__repr__` prints the rank first. `Cards.SwappedArgumentsRejected` shows
  that rank-first constructor arguments are rejected.
- `__eq__` and `__lt__` against a non-card return `NotImplemented` rather
  than raising an error themselves; the model returns `None` there.

## Model

| member | source | states |
|---|---|---|
| `Ascii.LowerAll` | oop_exam.py:26 | lower-cases every character and keeps the length: character i of the result is the lower-case form of character i of the input |
| `Ascii.Capitalize` | oop_exam.py:26 | `str.capitalize`: same length, first character upper-cased, every later character lower-cased |
| `Ascii.CapitalizeIs` | oop_exam.py:26 | the contract of `Capitalize` fixes its result: any string that meets it is the capitalized form |
| `Ascii.CapitalizeUpperName` | oop_exam.py:26 | on an upper-case member name, the first letter is kept and every later letter becomes its lower-case counterpart |
| `Ascii.CapitalizeInjective` | oop_exam.py:25-26 | two upper-case names with the same capitalized form are equal, so `str()` of a member loses no information |
| `CardEnums.SuitValue` | oop_exam.py:19-23 | every suit value lies in 1..4 |
| `CardEnums.SuitFromValue` | oop_exam.py:19-23 | lookup `CardSuit(v)` succeeds exactly for v in 1..4 and yields the suit whose value is v |
| `CardEnums.SuitValueRoundTrip` | oop_exam.py:19-23 | looking up a suit's own value gives back that suit |
| `CardEnums.SuitName` | oop_exam.py:19-23 | every suit name is a non-empty string of upper-case ASCII letters |
| `CardEnums.SuitFromName` | oop_exam.py:19-23 | lookup `CardSuit[n]` yields only a suit whose name is n |
| `CardEnums.SuitNameRoundTrip` | oop_exam.py:19-23 | looking up a suit's own name gives back that suit |
| `CardEnums.SuitStr` | oop_exam.py:25-26 | `str()` of a suit has the name's length and first letter, and every later character is the lower-case form of the name's letter |
| `CardEnums.SuitInjective` | oop_exam.py:19-26 | distinct suits have distinct values, names and `str()` forms |
| `CardEnums.SuitOrder` | oop_exam.py:19-23 | Hearts < Diamonds < Clubs < Spades by value, so Spades is above every other suit |
| `CardEnums.SuitStrTable` | oop_exam.py:25-26 | `str()` of the suits is "Hearts", "Diamonds", "Clubs", "Spades" |
| `CardEnums.RankValue` | oop_exam.py:28-41 | every rank value lies in 2..14; with `RankOrder` this fixes TWO = 2, THREE = 3, ..., KING = 13, ACE = 14 |
| `CardEnums.RankFromValue` | oop_exam.py:28-41 | lookup `CardRank(v)` succeeds exactly for v in 2..14 and yields the rank whose value is v |
| `CardEnums.RankValueRoundTrip` | oop_exam.py:28-41 | looking up a rank's own value gives back that rank |
| `CardEnums.RankName` | oop_exam.py:28-41 | every rank name is a non-empty string of upper-case ASCII letters |
| `CardEnums.RankFromName` | oop_exam.py:28-41 | lookup `CardRank[n]` yields only a rank whose name is n |
| `CardEnums.RankNameRoundTrip` | oop_exam.py:28-41 | looking up a rank's own name gives back that rank |
| `CardEnums.RankStr` | oop_exam.py:44-45 | `str()` of a rank has the name's length and first letter, and every later character is the lower-case form of the name's letter |
| `CardEnums.RankInjective` | oop_exam.py:28-45 | distinct ranks have distinct values, names and `str()` forms |
| `CardEnums.AceIsHighest` | oop_exam.py:28-41 | Ace outranks every other rank, and Two is below every other rank |
| `CardEnums.RankOrder` | oop_exam.py:28-41 | Two < Three < ... < King < Ace by value, so King outranks Queen and every rank outranks the ones before it |
| `CardEnums.RankStrTable` | oop_exam.py:44-45 | `str()` of the ranks is "Two" up to "Ten", then "Jack", "Queen", "King", "Ace" |
| `Cards.NewCard` | oop_exam.py:48-60 | construction succeeds exactly when the first argument is a suit and the second a rank; the accessors then return them unchanged; otherwise it fails with `ValueError("Invalid suit or rank")` |
| `Cards.SwappedArgumentsRejected` | oop_exam.py:48-50 | giving the rank first and the suit second fails with the invalid-value error |
| `Cards.SameArgumentsSameCard` | oop_exam.py:48-52 | construction from a suit and a rank succeeds and yields exactly the pair (suit, rank); cards are values, so two cards built from the same arguments are the same value |
| `Cards.DisplayName` | oop_exam.py:62-66 | `get_display_name()` and `str()` of a card: the rank's table entry ("Two" … "Ace"), " of ", then the suit's table entry ("Hearts" … "Spades") |
| `Cards.DisplayNameAceOfSpades` | oop_exam.py:62-63 | the Ace of Spades displays as "Ace of Spades" |
| `Cards.DisplayNameAceOfHearts` | oop_exam.py:62-63 | the Ace of Hearts displays as "Ace of Hearts" |
| `Cards.DisplayNameInjective` | oop_exam.py:62-63 | cards with the same display name are the same card |
| `Cards.Repr` | oop_exam.py:68-69 | `repr()`: "Card(", then the rank's member name, ", ", the suit's member name, ")" -- rank first; its length is the two names' lengths plus 8 |
| `Cards.ReprExample` | oop_exam.py:68-69 | `repr()` of the Ace of Spades is "Card(ACE, SPADES)", rank first |
| `Cards.ReprInjective` | oop_exam.py:68-69 | cards with the same `repr()` are the same card |
| `Cards.Equal` | oop_exam.py:74 | two cards are `==` (same rank and same suit) exactly when they are the same (suit, rank) pair |
| `Cards.Eq` | oop_exam.py:71-74 | `__eq__` gives `NotImplemented` (here `None`) exactly when the other value is not a card; otherwise it is true exactly when the two cards are the same card |
| `Cards.EqualIsSameCard` | oop_exam.py:71-74 | `==` between cards is reflexive and symmetric |
| `Cards.Hash` | oop_exam.py:71-77 | the hash agrees with `__eq__`: every value that `__eq__` calls equal to the card is a card, and its (rank, suit) tuple hash is the card's hash |
| `Cards.HashConsistentWithEq` | oop_exam.py:76-77 | for every tuple hash, cards that `__eq__` calls equal have equal hashes |
| `Cards.Less` | oop_exam.py:82-84 | `a < b` holds exactly when a's position in 0..51 is below b's (see `Key`), so `<` is the lexicographic order on (rank value, suit value) |
| `Cards.Greater` | oop_exam.py:87-88 | `a > b` holds exactly when a's position in 0..51 is above b's; with `GreaterIsConverse` it is exactly `b < a` |
| `Cards.Lt` | oop_exam.py:79-84 | `__lt__` gives `NotImplemented` (here `None`) exactly when the other value is not a card; otherwise it is true exactly when `Less` holds |
| `Cards.Key` | oop_exam.py:79-84 | each card has a position in 0..51; the position divided by 4, plus 2, is the rank value, and the position mod 4, plus 1, is the suit value |
| `Cards.CardAt` | oop_exam.py:79-84 | exactly the positions 0..51 hold a card, and the card at position k has position k, so `Key` is onto 0..51 |
| `Cards.KeyInjective` | oop_exam.py:79-84 | distinct cards have distinct positions |
| `Cards.KeyRoundTrip` | oop_exam.py:79-84 | the card at a card's own position is that card; with `KeyInjective` and `CardAt`, the 4 x 13 cards and the positions 0..51 correspond one to one |
| `Cards.RankIsPrimary` | oop_exam.py:82-84 | a lower rank value makes a card smaller, whatever the suits |
| `Cards.SuitBreaksTies` | oop_exam.py:82-83 | between cards of equal rank, `<` is the order of suit values |
| `Cards.LessIrreflexive` | oop_exam.py:79-84 | no card is below itself |
| `Cards.LessTransitive` | oop_exam.py:79-84 | `<` is transitive |
| `Cards.LessTrichotomy` | oop_exam.py:79-84 | for distinct cards exactly one of `a < b` and `b < a` holds; for equal cards neither does |
| `Cards.LessIsStrictTotalOrder` | oop_exam.py:79-84 | `<` is irreflexive, asymmetric, transitive and connected over all cards |
| `Cards.GreaterIsConverse` | oop_exam.py:87-88 | between distinct cards `>` holds exactly when `<` does not, and never both |
| `Cards.OrderExamples` | oop_exam.py:79-88 | the Ace of Spades is not below the Ace of Hearts, it is above it, and `__eq__` calls it equal to another Ace of Spades |
| `Cards.Extremes` | oop_exam.py:79-84 | the Ace of Spades is above every other card and the Two of Hearts is below every other card |

## Left out

- The demonstration block at the end of `oop_exam.py` (lines 90-98) only
  prints. Its printed values appear as the example lemmas above.
- The abstract interfaces `ICard` (in `oop_exam.py` and
  `interfaces/ICard.py`) and `IDeck` (`interfaces/IDeck.py`) declare
  methods and do nothing else.
- The deck (construction, shuffle, draw, duplicate-checked add, indexing,
  min and max) and the helpers `max_card` and `cards_stats` have no
  implementation in these files; shuffling would also need randomness.
  Deck and helpers are not part of this model.
- `Cards.Hash`: Python's concrete hash numbers are not modelled. The tuple
  hash is a parameter, so only the fact that the hash depends on (rank, suit)
  alone is captured.
- `Ascii.Capitalize`: only ASCII case mapping is modelled. Python uses
  Unicode title case for the first character and Unicode lower case for the
  rest. Every member name here is ASCII, so the enumerations are unaffected.
- `Cards.Eq` and `Cards.Lt`: what Python does after `NotImplemented` is not
  modelled. That would be trying the reflected method of the other operand,
  then falling back to identity for `==` or raising `TypeError` for `<`.
- `Cards.Greater` is defined only between two cards. Read from the source
  (not executed): `card > 5` evaluates `5 < card`; `int.__lt__` returns
  `NotImplemented`, so Python tries the reflected `card.__gt__(5)`, which
  evaluates `5 < card` again. The call recurses until `RecursionError`
  rather than raising `TypeError`. The model does not represent this
  dispatch.
- `CardEnums.SuitFromValue`, `CardEnums.RankFromValue`,
  `CardEnums.SuitFromName` and `CardEnums.RankFromName`: an unknown value or
  name gives `None`, not the `ValueError` or `KeyError` Python raises.
- `Cards.Value` holds only a few kinds of Python object: suit, rank, card,
  int, str and `None`. Subclasses of `Card` do not occur in the source and
  are not modelled.
