/**
 * The loading screen of the page: a text that cycles through three loading
 * messages on every animation event, a decision to stop loading, the choice
 * between the Friday video and the "no" element, and the playback rate chosen
 * when the video is replayed.
 *
 * The clock is an input: each event receives whether it is Friday. The random
 * draw `Math.floor(Math.random() * 100)` is an integer in [0, 100).
 */
module LoadingScreen {
  import ClassName

  const LoadingTexts: seq<string> := [
    "Initierar världstid",
    "Kvantumsamplar tidszonerna",
    "Laddar resultat"
  ]

  const PlaybackRates: seq<real> := [0.5, 0.75, 1.0, 1.25, 1.5, 1.75, 2.0]

  /** `xs.indexOf(x)`: the first position holding x, or -1. */
  function IndexOf(xs: seq<string>, x: string): (r: int)
    ensures -1 <= r < |xs|
    ensures r == -1 <==> x !in xs
    ensures 0 <= r ==> xs[r] == x && forall j :: 0 <= j < r ==> xs[j] != x
  {
    if xs == [] then -1
    else if xs[0] == x then 0
    else
      var k := IndexOf(xs[1..], x);
      if k == -1 then -1 else k + 1
  }

  /** The loading texts are pairwise different, so each is found at its own position. */
  lemma IndexOfLoadingText(i: nat)
    requires i < |LoadingTexts|
    ensures IndexOf(LoadingTexts, LoadingTexts[i]) == i
  {
    assert |LoadingTexts[0]| != |LoadingTexts[1]| && |LoadingTexts[0]| != |LoadingTexts[2]|
      && |LoadingTexts[1]| != |LoadingTexts[2]|;
  }

  /** Position of the text that follows `current`. */
  function NextIndex(current: string): (k: nat)
    ensures k < |LoadingTexts|
  {
    var i := IndexOf(LoadingTexts, current);
    (if i != -1 then i + 1 else 0) % |LoadingTexts|
  }

  /** The text the loading element shows after one more animation event. */
  function NextText(current: string): (r: string)
    ensures r in LoadingTexts
    ensures current !in LoadingTexts ==> r == LoadingTexts[0]
  {
    LoadingTexts[NextIndex(current)]
  }

  /** From the i-th loading text the next one is the (i + 1)-th, wrapping to the first. */
  lemma NextTextFollows(i: nat)
    requires i < |LoadingTexts|
    ensures NextText(LoadingTexts[i]) == LoadingTexts[(i + 1) % |LoadingTexts|]
  {
    IndexOfLoadingText(i);
  }

  /** Three events bring any loading text back. */
  lemma NextTextCycles(i: nat)
    requires i < |LoadingTexts|
    ensures NextText(NextText(NextText(LoadingTexts[i]))) == LoadingTexts[i]
  {
    var j := (i + 1) % 3;
    var k := (j + 1) % 3;
    calc {
      NextText(NextText(NextText(LoadingTexts[i])));
      { NextTextFollows(i); }
      NextText(NextText(LoadingTexts[j]));
      { NextTextFollows(j); }
      NextText(LoadingTexts[k]);
      { NextTextFollows(k); }
      LoadingTexts[(k + 1) % 3];
      { assert (k + 1) % 3 == i; }
      LoadingTexts[i];
    }
  }

  /** Loading may end when the player is ready or it is not Friday, and the animation has run for twice as many seconds as there are texts. */
  predicate ShouldHide(playerReady: bool, friday: bool, elapsed: real) {
    (playerReady || !friday) && elapsed >= (|LoadingTexts| * 2) as real
  }

  /** Loading ends exactly at six seconds or later, and on a Friday only once the player is ready. */
  lemma HideCondition(playerReady: bool, friday: bool, elapsed: real)
    ensures ShouldHide(playerReady, friday, elapsed) <==> elapsed >= 6.0 && (playerReady || !friday)
  {
  }

  /** The index of the rate chosen for a replay, from a draw in [0, 100). */
  function RateIndex(draw: int): (i: nat)
    requires 0 <= draw < 100
    ensures i < |PlaybackRates|
  {
    draw % |PlaybackRates|
  }

  /** Every listed rate is chosen by some draw. */
  lemma EveryRateReachable(i: nat)
    requires i < |PlaybackRates|
    ensures exists draw :: 0 <= draw < 100 && RateIndex(draw) == i
  {
    assert RateIndex(i) == i;
  }

  /** The number of draws in [0, n) that choose the rate at index i. */
  function DrawsChoosing(i: nat, n: nat): nat
    requires n <= 100
  {
    if n == 0 then 0
    else DrawsChoosing(i, n - 1) + (if RateIndex(n - 1) == i then 1 else 0)
  }

  /** The draw at offset j in the q-th block of seven chooses the rate at index j. */
  lemma RateInBlock(q: nat, j: nat)
    requires j < 7 && 7 * q + j < 100
    ensures RateIndex(7 * q + j) == j
  {
  }

  /** The q-th block of seven draws chooses each rate once. */
  lemma OneBlock(i: nat, q: nat)
    requires i < |PlaybackRates| && 7 * q + 7 <= 100
    ensures DrawsChoosing(i, 7 * q + 7) == DrawsChoosing(i, 7 * q) + 1
  {
    var b := 7 * q;
    var c := DrawsChoosing(i, b);
    RateInBlock(q, 0);
    assert DrawsChoosing(i, b + 1) == c + (if i == 0 then 1 else 0);
    RateInBlock(q, 1);
    assert DrawsChoosing(i, b + 2) == c + (if i <= 1 then 1 else 0);
    RateInBlock(q, 2);
    assert DrawsChoosing(i, b + 3) == c + (if i <= 2 then 1 else 0);
    RateInBlock(q, 3);
    assert DrawsChoosing(i, b + 4) == c + (if i <= 3 then 1 else 0);
    RateInBlock(q, 4);
    assert DrawsChoosing(i, b + 5) == c + (if i <= 4 then 1 else 0);
    RateInBlock(q, 5);
    assert DrawsChoosing(i, b + 6) == c + (if i <= 5 then 1 else 0);
    RateInBlock(q, 6);
  }

  /** Each block of seven consecutive draws chooses every rate once. */
  lemma {:induction false} DrawsInBlocks(i: nat, m: nat)
    requires i < |PlaybackRates| && 7 * m <= 100
    ensures DrawsChoosing(i, 7 * m) == m
  {
    if m > 0 {
      DrawsInBlocks(i, m - 1);
      OneBlock(i, m - 1);
    }
  }

  /**
   * Whatever rate is playing, the next replay keeps it for 14 or 15 of the 100
   * draws: the first two rates are chosen by 15 draws, the others by 14.
   */
  lemma DrawsPerRate(i: nat)
    requires i < |PlaybackRates|
    ensures DrawsChoosing(i, 100) == (if i < 2 then 15 else 14)
  {
    DrawsInBlocks(i, 14);
    assert RateIndex(98) == 0 && RateIndex(99) == 1;
  }

  /** `setVisibility(el, false)`: `addClass(el, 'hidden')`. */
  function SetHidden(classString: string): (r: string)
    ensures "hidden" in ClassName.Tokens(r) && ClassName.NoWhitespaceRun(r)
  {
    HiddenAppended(classString);
    ClassName.AddClass(classString, "hidden")
  }

  /** `fadeIn(el)`: `addClass(el, 'fade-in')`. */
  function FadeIn(classString: string): string {
    LiteralNames();
    ClassName.AddClass(classString, "fade-in")
  }

  /** Hiding appends the one class name `hidden` and leaves no whitespace run. */
  lemma HiddenAppended(classString: string)
    ensures ClassName.IsLiteralName("hidden")
    ensures ClassName.Tokens(ClassName.AddClass(classString, "hidden")) == ClassName.Tokens(classString) + ["hidden"]
    ensures ClassName.NoWhitespaceRun(ClassName.AddClass(classString, "hidden"))
  {
    LiteralNames();
    ClassName.AddNamedClass(classString, "hidden");
    ClassName.AddClassAppends(classString, "hidden");
  }

  /** Fading in appends the one class name `fade-in` and leaves no whitespace run. */
  lemma FadeInAppends(classString: string)
    ensures ClassName.Tokens(FadeIn(classString)) == ClassName.Tokens(classString) + ["fade-in"]
    ensures ClassName.NoWhitespaceRun(FadeIn(classString))
  {
    LiteralNames();
    ClassName.AddNamedClass(classString, "fade-in");
    ClassName.AddClassAppends(classString, "fade-in");
  }

  /** Which element the page shows once loading has ended. */
  datatype Shown = Loading | FridayVideo | NotFriday

  /**
   * The page's state: the loading element's text and class string, the class
   * strings of the two elements it may reveal, whether the YouTube player is
   * ready, whether the animation listener is still registered, what has been
   * revealed, how often `playVideo` was called and the positions in
   * `PlaybackRates` of the rates passed to `setPlaybackRate`.
   */
  class Page {
    var loadingText: string
    var loadingClass: string
    var fridayClass: string
    var notFridayClass: string
    var playerReady: bool
    var listening: bool
    var shown: Shown
    var videoStarts: nat
    var rateIndices: seq<nat>

    ghost predicate Valid()
      reads this
    {
      (listening <==> shown == Loading) &&
      (shown == FridayVideo ==> videoStarts > 0) &&
      (videoStarts > 0 ==> playerReady) &&
      (forall k :: 0 <= k < |rateIndices| ==> rateIndices[k] < |PlaybackRates|) &&
      (shown != Loading ==>
         "hidden" in ClassName.Tokens(loadingClass) && ClassName.NoWhitespaceRun(loadingClass))
    }

    /** The page as the script finds it: listeners applied, nothing revealed, no player yet. */
    constructor (text: string, loadingClassString: string, fridayClassString: string, notFridayClassString: string)
      ensures Valid()
      ensures loadingText == text && loadingClass == loadingClassString
      ensures fridayClass == fridayClassString && notFridayClass == notFridayClassString
      ensures !playerReady && listening && shown == Loading && videoStarts == 0 && rateIndices == []
    {
      loadingText := text;
      loadingClass := loadingClassString;
      fridayClass := fridayClassString;
      notFridayClass := notFridayClassString;
      playerReady := false;
      listening := true;
      shown := Loading;
      videoStarts := 0;
      rateIndices := [];
    }

    /**
     * `onPlayerReady`: the player is set, and the Friday element is looked up
     * again, now the player's iframe, whose class string is `iframeClass`.
     */
    method OnPlayerReady(iframeClass: string)
      requires Valid()
      modifies this
      ensures Valid()
      ensures playerReady && fridayClass == iframeClass
      ensures loadingText == old(loadingText) && loadingClass == old(loadingClass)
      ensures notFridayClass == old(notFridayClass) && listening == old(listening)
      ensures shown == old(shown) && videoStarts == old(videoStarts) && rateIndices == old(rateIndices)
    {
      playerReady := true;
      fridayClass := iframeClass;
    }

    /**
     * `hideLoading`: the listener is removed, the loading element gets the
     * class `hidden`, the Friday video or the "no" element is made visible
     * (`removeHidden` stands for `removeClass(el, 'hidden')`) and faded in,
     * and on a Friday the video starts.
     */
    method HideLoading(friday: bool, removeHidden: string -> string)
      requires Valid() && listening
      requires friday ==> playerReady
      modifies this
      ensures Valid()
      ensures !listening
      ensures shown == (if friday then FridayVideo else NotFriday)
      ensures loadingClass == SetHidden(old(loadingClass))
      ensures fridayClass == (if friday then FadeIn(removeHidden(old(fridayClass))) else old(fridayClass))
      ensures notFridayClass == (if friday then old(notFridayClass) else FadeIn(removeHidden(old(notFridayClass))))
      ensures videoStarts == old(videoStarts) + (if friday then 1 else 0)
      ensures loadingText == old(loadingText) && playerReady == old(playerReady) && rateIndices == old(rateIndices)
    {
      listening := false;
      loadingClass := SetHidden(loadingClass);
      if friday {
        shown := FridayVideo;
        fridayClass := FadeIn(removeHidden(fridayClass));
        videoStarts := videoStarts + 1;
      } else {
        shown := NotFriday;
        notFridayClass := FadeIn(removeHidden(notFridayClass));
      }
    }

    /**
     * `loadingListener`, run for an animation event `elapsed` seconds into the
     * animation; once the listener is removed, events change nothing.
     */
    method LoadingListener(elapsed: real, friday: bool, removeHidden: string -> string)
      requires Valid()
      modifies this
      ensures Valid()
      ensures !old(listening) ==> unchanged(this)
      ensures old(listening) ==> loadingText == NextText(old(loadingText))
      ensures old(listening) ==> (listening <==> !ShouldHide(old(playerReady), friday, elapsed))
      ensures old(listening) && !listening ==>
                shown == (if friday then FridayVideo else NotFriday) &&
                videoStarts == old(videoStarts) + (if friday then 1 else 0) &&
                loadingClass == SetHidden(old(loadingClass)) &&
                fridayClass == (if friday then FadeIn(removeHidden(old(fridayClass))) else old(fridayClass)) &&
                notFridayClass == (if friday then old(notFridayClass) else FadeIn(removeHidden(old(notFridayClass))))
      ensures listening ==>
                shown == old(shown) && videoStarts == old(videoStarts) && loadingClass == old(loadingClass) &&
                fridayClass == old(fridayClass) && notFridayClass == old(notFridayClass)
      ensures playerReady == old(playerReady) && rateIndices == old(rateIndices)
    {
      if listening {
        loadingText := NextText(loadingText);
        if ShouldHide(playerReady, friday, elapsed) {
          HideLoading(friday, removeHidden);
        }
      }
    }

    /**
     * `onPlayerStateChange`: when the video has ended, a rate is set from the
     * draw and the video is played again.
     */
    method OnPlayerStateChange(ended: bool, draw: int)
      requires Valid() && (ended ==> playerReady)
      requires 0 <= draw < 100
      modifies this
      ensures Valid()
      ensures rateIndices == old(rateIndices) + (if ended then [RateIndex(draw)] else [])
      ensures videoStarts == old(videoStarts) + (if ended then 1 else 0)
      ensures loadingText == old(loadingText) && loadingClass == old(loadingClass)
      ensures fridayClass == old(fridayClass) && notFridayClass == old(notFridayClass)
      ensures playerReady == old(playerReady) && listening == old(listening) && shown == old(shown)
    {
      if ended {
        rateIndices := rateIndices + [RateIndex(draw)];
        videoStarts := videoStarts + 1;
      }
    }
  }

  /** The two names the page adds are plain text in a regular expression and single class names. */
  lemma LiteralNames()
    ensures ClassName.IsLiteralName("hidden") && !ClassName.HasWhitespace("hidden")
    ensures ClassName.IsLiteralName("fade-in") && !ClassName.HasWhitespace("fade-in")
  {
  }

  /**
   * A day that is not Friday: events 0, 2, 4 and 6 seconds into the animation.
   * The text cycles from an unknown one through the three loading texts, and
   * the event at 6 seconds shows the first text again and reveals the "no" element.
   */
  method NotFridayTimeline(removeHidden: string -> string) returns (text: string, shown: Shown, videoStarts: nat)
    ensures text == LoadingTexts[0] && shown == NotFriday && videoStarts == 0
  {
    var page := new Page("", "loading", "is-friday", "not-friday");
    assert |LoadingTexts[0]| > 0 && |LoadingTexts[1]| > 0 && |LoadingTexts[2]| > 0;
    page.LoadingListener(0.0, false, removeHidden);
    assert page.loadingText == LoadingTexts[0];
    NextTextFollows(0);
    page.LoadingListener(2.0, false, removeHidden);
    assert page.loadingText == LoadingTexts[1];
    NextTextFollows(1);
    page.LoadingListener(4.0, false, removeHidden);
    assert page.loadingText == LoadingTexts[2] && page.listening;
    NextTextFollows(2);
    page.LoadingListener(6.0, false, removeHidden);
    text, shown, videoStarts := page.loadingText, page.shown, page.videoStarts;
  }

  /**
   * A Friday on which the player becomes ready late: at 8 seconds the page is
   * still loading; the first event after `onPlayerReady` reveals the video and
   * starts it, and later events change nothing.
   */
  method LateFridayTimeline(removeHidden: string -> string) returns (stillLoadingAt8: bool, shown: Shown, videoStarts: nat)
    ensures stillLoadingAt8 && shown == FridayVideo && videoStarts == 1
  {
    var page := new Page("", "loading", "is-friday", "not-friday");
    page.LoadingListener(8.0, true, removeHidden);
    page.OnPlayerStateChange(false, 0);
    stillLoadingAt8 := page.listening;
    page.OnPlayerReady("is-friday");
    page.LoadingListener(10.0, true, removeHidden);
    page.LoadingListener(12.0, true, removeHidden);
    shown, videoStarts := page.shown, page.videoStarts;
  }
}
