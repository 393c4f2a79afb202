/**
 * The recipe carousel's configuration: how many slides are visible, whether
 * it can slide, loop and autoplay, and the padded list it is given when
 * there are too few recipes to slide.
 */
module RecipesSlider {
  import ListView

  const DefaultSlidesPerView := 4

  datatype SliderConfig = SliderConfig(
    actualSlidesPerView: int, canSlide: bool, shouldLoop: bool, shouldAutoplay: bool)

  function Max(a: int, b: int): int {
    if a < b then b else a
  }

  /** The carousel settings for `n` recipes and the requested props. */
  function Configure(n: nat, slidesPerView: int, autoplay: bool, loop: bool): (c: SliderConfig)
    ensures c.actualSlidesPerView <= slidesPerView && c.actualSlidesPerView <= n
    ensures c.actualSlidesPerView == slidesPerView || c.actualSlidesPerView == n
    ensures c.canSlide <==> n > slidesPerView
    ensures c.shouldLoop <==> loop && n > slidesPerView
    ensures c.shouldAutoplay <==> autoplay && n > slidesPerView
  {
    var actual := ListView.Min(slidesPerView, n);
    var canSlide := n > actual;
    SliderConfig(actual, canSlide, loop && canSlide, autoplay && canSlide)
  }

  /** `recipesForSlider`: the recipes themselves, or the recipes followed by some of them again. */
  function SlidesFor<T>(recipes: seq<T>, slidesPerView: int): (slides: seq<T>)
    ensures |recipes| > slidesPerView ==> slides == recipes
    ensures |recipes| <= slidesPerView ==>
      slides == recipes + recipes[..ListView.Min(|recipes|, Max(1, slidesPerView - |recipes|))]
  {
    var c := Configure(|recipes|, slidesPerView, false, false);
    if c.canSlide then recipes
    else recipes + ListView.JsSlice(recipes, 0, Max(1, slidesPerView - |recipes|))
  }

  /** The input is always a prefix of the slides, the padding is at least one recipe, and no recipes stay none. */
  lemma SlidesExtendInput<T>(recipes: seq<T>, slidesPerView: int)
    ensures var slides := SlidesFor(recipes, slidesPerView);
      && slides[..|recipes|] == recipes
      && (recipes == [] ==> slides == [])
      && (recipes != [] && |recipes| <= slidesPerView ==> |slides| > |recipes|)
      && |slides| <= 2 * |recipes|
  {
    var slides := SlidesFor(recipes, slidesPerView);
    assert slides[..|recipes|] == recipes;
  }
}
