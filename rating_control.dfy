/**
 * The star-rating control (MyPlaces/RatingControl.swift): a stack view of
 * `starCount` star buttons whose selection always mirrors the integer `rating`.
 */
module Rating {
  import opened Wrappers
  import opened Seqs

  /** A star button; only its selected state matters here. */
  class StarButton {
    var isSelected: bool

    constructor ()
      ensures !isSelected
    {
      isSelected := false;
    }
  }

  /** The size of one star, in points. */
  datatype Size = Size(width: real, height: real)

  /**
   * The rating a tap produces: tapping the star at `index` selects
   * `index + 1` stars, unless exactly that many are already selected, in
   * which case the rating is cleared. A tap on a button the control does not
   * own (`index == None`) changes nothing.
   */
  function TappedRating(rating: int, index: Option<nat>): (r: int)
    ensures index.None? ==> r == rating
    ensures index.Some? && rating == index.value + 1 ==> r == 0
    ensures index.Some? && rating != index.value + 1 ==> r == index.value + 1 && r != rating
  {
    match index
    case None => rating
    case Some(i) => if i + 1 == rating then 0 else i + 1
  }

  /** Taps keep a rating within 0..starCount: they never go past the tapped star. */
  lemma TapStaysInRange(rating: int, index: nat, starCount: nat)
    requires 0 <= rating <= starCount && index < starCount
    ensures 0 <= TappedRating(rating, Some(index)) <= starCount
  {
  }

  class RatingControl {
    var rating: int
    var starSize: Size
    var starCount: int
    var ratingButtons: seq<StarButton>
    /** The stack view's arranged subviews. */
    var arrangedSubviews: seq<StarButton>

    /** Button i is selected exactly when i < rating. */
    ghost predicate SelectionMatchesRating()
      reads this, ratingButtons
    {
      forall i :: 0 <= i < |ratingButtons| ==> ratingButtons[i].isSelected == (i < rating)
    }

    /**
     * The control shows exactly its `starCount` distinct buttons, and their
     * selection matches the rating.
     */
    ghost predicate Valid()
      reads this, ratingButtons
    {
      && Distinct(ratingButtons)
      && arrangedSubviews == ratingButtons
      && |ratingButtons| == starCount
      && SelectionMatchesRating()
    }

    /** `init(frame:)`: the property defaults, then `setupButtons()`. */
    constructor ()
      ensures Valid() && rating == 0 && starCount == 5 && starSize == Size(44.0, 44.0)
      ensures forall b :: b in ratingButtons ==> fresh(b)
    {
      rating := 0;
      starSize := Size(44.0, 44.0);
      starCount := 5;
      ratingButtons := [];
      arrangedSubviews := [];
      new;
      SetupButtons();
    }

    /** The `didSet` observer of `rating`: every assignment refreshes the buttons. */
    method SetRating(value: int)
      requires Valid()
      modifies this, ratingButtons
      ensures Valid() && rating == value
      ensures ratingButtons == old(ratingButtons) && starCount == old(starCount) && starSize == old(starSize)
    {
      rating := value;
      UpdateButtonSelectionState();
    }

    /** The `didSet` observer of `starSize`: the buttons are rebuilt. */
    method SetStarSize(size: Size)
      requires Valid()
      modifies this
      ensures Valid() && starSize == size
      ensures rating == old(rating) && starCount == old(starCount)
      ensures forall b :: b in ratingButtons ==> fresh(b)
    {
      starSize := size;
      SetupButtons();
    }

    /**
     * The `didSet` observer of `starCount`: the buttons are rebuilt. A
     * negative count traps in the range `0..<starCount`.
     */
    method SetStarCount(count: int)
      requires Valid() && count >= 0
      modifies this
      ensures Valid() && starCount == count && |ratingButtons| == count
      ensures rating == old(rating) && starSize == old(starSize)
      ensures forall b :: b in ratingButtons ==> fresh(b)
    {
      starCount := count;
      SetupButtons();
    }

    /**
     * `ratingButtonTapped`: find the button, then set the rating it selects
     * (or clear it when that star count is already the rating).
     */
    method RatingButtonTapped(button: StarButton)
      requires Valid()
      modifies this, ratingButtons
      ensures Valid()
      ensures rating == TappedRating(old(rating), FirstIndex(old(ratingButtons), button))
      ensures button !in ratingButtons ==> rating == old(rating)
      ensures 0 <= old(rating) <= starCount ==> 0 <= rating <= starCount
      ensures ratingButtons == old(ratingButtons) && starCount == old(starCount) && starSize == old(starSize)
    {
      var found := FirstIndex(ratingButtons, button);
      if found.None? {
        return;
      }
      if 0 <= rating <= starCount {
        TapStaysInRange(rating, found.value, starCount);
      }
      var selectedRating := found.value + 1;
      if selectedRating == rating {
        SetRating(0);
      } else {
        SetRating(selectedRating);
      }
    }

    /**
     * `setupButtons`: take every old button off the stack and empty the
     * array, then create `starCount` new buttons, stack them, and refresh
     * their selection.
     */
    method SetupButtons()
      requires Distinct(ratingButtons) && arrangedSubviews == ratingButtons && starCount >= 0
      modifies this
      ensures Valid()
      ensures rating == old(rating) && starCount == old(starCount) && starSize == old(starSize)
      ensures forall b :: b in ratingButtons ==> fresh(b)
    {
      for i := 0 to |ratingButtons|
        invariant ratingButtons == old(ratingButtons)
        invariant starCount == old(starCount) && rating == old(rating) && starSize == old(starSize)
        invariant arrangedSubviews == ratingButtons[i..]
      {
        arrangedSubviews := RemoveFirst(arrangedSubviews, ratingButtons[i]);
      }
      ratingButtons := [];

      for k := 0 to starCount
        invariant starCount == old(starCount) && rating == old(rating) && starSize == old(starSize)
        invariant |ratingButtons| == k
        invariant arrangedSubviews == ratingButtons
        invariant Distinct(ratingButtons)
        invariant forall i :: 0 <= i < k ==> fresh(ratingButtons[i])
      {
        var button := new StarButton();
        arrangedSubviews := arrangedSubviews + [button];
        DistinctCons(button, ratingButtons);
        ratingButtons := ratingButtons + [button];
      }

      UpdateButtonSelectionState();
    }

    /** `updateButtonSelectionState`: button i is selected iff i < rating. */
    method UpdateButtonSelectionState()
      requires Distinct(ratingButtons)
      modifies ratingButtons
      ensures SelectionMatchesRating()
    {
      for i := 0 to |ratingButtons|
        invariant forall j :: 0 <= j < i ==> ratingButtons[j].isSelected == (j < rating)
      {
        ratingButtons[i].isSelected := i < rating;
      }
    }
  }
}
