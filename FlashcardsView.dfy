/**
  The flashcard navigator of components/FlashcardsView.tsx: a current index
  into the deck and a flipped flag. Next and previous move the index round the
  deck and turn the card face up; flipping toggles the flag; a new deck
  starts again at the first card, face up. The 200 ms delay before the index
  moves is taken as immediate.
 */
module FlashcardsView {
  import opened Types

  /** `(i + 1) % n`. */
  function NextIndex(i: nat, n: nat): (next: nat)
    requires i < n
  {
    (i + 1) % n
  }

  /** `(i - 1 + n) % n`; the left operand is never negative, so JavaScript's `%` and Dafny's agree. */
  function PrevIndex(i: nat, n: nat): (prev: nat)
    requires i < n
  {
    (i - 1 + n) % n
  }

  /** Both moves stay inside the deck. */
  lemma MovesStayInDeck(i: nat, n: nat)
    requires i < n
    ensures NextIndex(i, n) < n && PrevIndex(i, n) < n
    ensures NextIndex(i, n) == if i == n - 1 then 0 else i + 1
    ensures PrevIndex(i, n) == if i == 0 then n - 1 else i - 1
  {
    if i == n - 1 {
      ModOfDivision(i + 1, n, 1, 0);
    } else {
      ModOfDivision(i + 1, n, 0, i + 1);
    }
    if i == 0 {
      ModOfDivision(i - 1 + n, n, 0, n - 1);
    } else {
      ModOfDivision(i - 1 + n, n, 1, i - 1);
    }
  }

  /** Previous undoes next, and next undoes previous. */
  lemma NextPrevInverse(i: nat, n: nat)
    requires i < n
    ensures PrevIndex(NextIndex(i, n), n) == i
    ensures NextIndex(PrevIndex(i, n), n) == i
  {
    MovesStayInDeck(i, n);
    MovesStayInDeck(NextIndex(i, n), n);
    MovesStayInDeck(PrevIndex(i, n), n);
  }

  /** The index after `k` presses of next. */
  function NextTimes(i: nat, n: nat, k: nat): (r: nat)
    requires i < n
    ensures r < n
    decreases k
  {
    if k == 0 then i else NextIndex(NextTimes(i, n, k - 1), n)
  }

  /** `k` presses of next advance the index by `k` round the deck. */
  lemma {:induction false} NextTimesIsAddition(i: nat, n: nat, k: nat)
    requires i < n
    ensures NextTimes(i, n, k) == (i + k) % n
    decreases k
  {
    if k > 0 {
      var a := i + (k - 1);
      NextTimesIsAddition(i, n, k - 1);
      assert NextTimes(i, n, k - 1) == a % n;
      ModSuccessor(a, n);
      assert NextTimes(i, n, k) == (a % n + 1) % n;
      assert a + 1 == i + k;
    }
  }

  lemma ModSuccessor(a: nat, n: nat)
    requires n > 0
    ensures (a % n + 1) % n == (a + 1) % n
  {
    var q, j := a / n, a % n;
    assert a == q * n + j;
    if j + 1 < n {
      ModOfDivision(a + 1, n, q, j + 1);
      ModOfDivision(j + 1, n, 0, j + 1);
    } else {
      assert a + 1 == (q + 1) * n + 0;
      ModOfDivision(a + 1, n, q + 1, 0);
      ModOfDivision(j + 1, n, 1, 0);
    }
  }

  /** Pressing next once per card comes back to the starting card. */
  lemma FullCycle(i: nat, n: nat)
    requires i < n
    ensures NextTimes(i, n, n) == i
  {
    NextTimesIsAddition(i, n, n);
    ModOfDivision(i + n, n, 1, i);
  }

  /** Quotient and remainder are unique: `a == q * n + r` with `0 <= r < n` makes `r` the remainder. */
  lemma ModOfDivision(a: nat, n: nat, q: nat, r: nat)
    requires 0 <= r < n && a == q * n + r
    ensures a % n == r
  {
    var q', r' := a / n, a % n;
    assert a == q' * n + r';
    assert (q - q') * n == r' - r;
    if q > q' {
      MultipleAtLeast(q - q', n);
    } else if q < q' {
      MultipleAtLeast(q' - q, n);
    }
  }

  lemma MultipleAtLeast(k: int, n: nat)
    requires k >= 1
    ensures k * n >= n
  {
  }

  /** What the view shows: the empty-deck message, or card `position` of `count` on the given face. */
  datatype CardView =
    | NoCards
    | ShowingCard(position: nat, count: nat, card: Flashcard, flipped: bool)

  class FlashcardsState {
    var flashcards: seq<Flashcard>
    var currentIndex: nat
    var isFlipped: bool

    /** The index points into the deck (and rests at 0 while the deck is empty). */
    ghost predicate Valid()
      reads this
    {
      if |flashcards| == 0 then currentIndex == 0 else currentIndex < |flashcards|
    }

    /** Mounting: `useState(0)`, `useState(false)`. */
    constructor (cards: seq<Flashcard>)
      ensures Valid()
      ensures flashcards == cards && currentIndex == 0 && !isFlipped
    {
      flashcards := cards;
      currentIndex := 0;
      isFlipped := false;
    }

    /** The effect run when the deck changes: back to the first card, face up. */
    method ChangeDeck(cards: seq<Flashcard>)
      modifies this
      ensures Valid()
      ensures flashcards == cards && currentIndex == 0 && !isFlipped
    {
      flashcards := cards;
      currentIndex := 0;
      isFlipped := false;
    }

    /** `handleNext` (its buttons exist only for a non-empty deck). */
    method Next()
      requires Valid() && |flashcards| > 0
      modifies this
      ensures Valid()
      ensures flashcards == old(flashcards)
      ensures currentIndex == NextIndex(old(currentIndex), |flashcards|) && !isFlipped
    {
      isFlipped := false;
      currentIndex := (currentIndex + 1) % |flashcards|;
    }

    /** `handlePrev` (its buttons exist only for a non-empty deck). */
    method Prev()
      requires Valid() && |flashcards| > 0
      modifies this
      ensures Valid()
      ensures flashcards == old(flashcards)
      ensures currentIndex == PrevIndex(old(currentIndex), |flashcards|) && !isFlipped
    {
      isFlipped := false;
      currentIndex := (currentIndex - 1 + |flashcards|) % |flashcards|;
    }

    /** `handleFlip`. */
    method Flip()
      requires Valid()
      modifies this
      ensures Valid()
      ensures flashcards == old(flashcards) && currentIndex == old(currentIndex)
      ensures isFlipped == !old(isFlipped)
    {
      isFlipped := !isFlipped;
    }

    /** What is rendered: the message for an empty deck, otherwise the label `Ficha i+1 de n` and the current card. */
    function View(): (v: CardView)
      reads this
      requires Valid()
      ensures v.NoCards? <==> |flashcards| == 0
      ensures v.ShowingCard? ==>
        1 <= v.position <= v.count == |flashcards| && v.card == flashcards[v.position - 1] && v.flipped == isFlipped
      ensures v.ShowingCard? ==> v.position == currentIndex + 1
    {
      if |flashcards| == 0 then NoCards
      else ShowingCard(currentIndex + 1, |flashcards|, flashcards[currentIndex], isFlipped)
    }
  }
}
