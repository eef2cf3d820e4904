/**
 * The first-launch walkthrough (ui/screens/OnboardingScreen.kt): three
 * pages, each title with one highlighted word, page indicators and a
 * Next / Get Started button.
 */
module Onboarding {
  import opened Text

  /** One page's texts; the background image is not modelled. */
  datatype OnboardingPage = OnboardingPage(
    firstTitle: string,
    secondTitle: string,
    highlightedText: string,
    description: string)

  const Pages: seq<OnboardingPage> := [
    OnboardingPage("Reduce digital", "distractions", "distractions",
                   "Limit distracting apps so you can stay present and focused."),
    OnboardingPage("Designed for", "everyday life", "everyday",
                   "Create focus modes for work, family time, study, or rest."),
    OnboardingPage("Plan your", "focus time", "focus",
                   "Choose when apps are blocked and when they’re available.")
  ]

  /** `pages.lastIndex` */
  const LastIndex: int := |Pages| - 1

  /** The two title lines joined by a newline. */
  function FullTitle(p: OnboardingPage): (t: string)
    ensures |t| == |p.firstTitle| + 1 + |p.secondTitle|
    ensures t[..|p.firstTitle|] == p.firstTitle && t[|p.firstTitle|] == '\n'
    ensures t[|p.firstTitle| + 1..] == p.secondTitle
  {
    p.firstTitle + "\n" + p.secondTitle
  }

  /** The title as built for display: plain, or split around one styled span. */
  datatype AnnotatedTitle = Plain(text: string) | Highlighted(prefix: string, highlight: string, suffix: string)

  /**
   * buildAnnotatedString: the highlight is looked up with indexOf; when
   * found, the text before it, the highlight (styled) and the rest are
   * appended; otherwise the full title is appended unstyled.
   */
  function TitleOf(p: OnboardingPage): (t: AnnotatedTitle)
    ensures t.Plain? <==> !Contains(FullTitle(p), p.highlightedText)
    ensures t.Plain? ==> t.text == FullTitle(p)
    ensures t.Highlighted? ==> t.highlight == p.highlightedText &&
                               t.prefix + t.highlight + t.suffix == FullTitle(p)
    ensures t.Highlighted? ==> IsAt(FullTitle(p), p.highlightedText, |t.prefix|) &&
                               forall j: nat :: j < |t.prefix| ==> !IsAt(FullTitle(p), p.highlightedText, j)
  {
    var fullTitle := FullTitle(p);
    var highlight := p.highlightedText;
    var startIndex := IndexOf(fullTitle, highlight);
    if startIndex >= 0 then
      var prefix := fullTitle[..startIndex];
      var suffix := fullTitle[startIndex + |highlight|..];
      assert prefix + highlight + suffix == fullTitle by {
        assert fullTitle[startIndex..startIndex + |highlight|] == highlight;
        assert fullTitle == fullTitle[..startIndex] + fullTitle[startIndex..startIndex + |highlight|] +
                            fullTitle[startIndex + |highlight|..];
      }
      Highlighted(prefix, highlight, suffix)
    else Plain(fullTitle)
  }

  /** A highlight that opens the second line is always found, at the latest at the start of that line. */
  lemma OpensSecondLine(p: OnboardingPage)
    requires IsAt(p.secondTitle, p.highlightedText, 0)
    ensures TitleOf(p).Highlighted? && |TitleOf(p).prefix| <= |p.firstTitle| + 1
  {
    var full, h := FullTitle(p), p.highlightedText;
    var n := |p.firstTitle| + 1;
    assert full[n..n + |h|] == p.secondTitle[..|h|];
    assert IsAt(full, h, n);
  }

  /** Every page's title gets its highlighted span. */
  lemma EveryPageHighlighted(k: nat)
    requires k < |Pages|
    ensures TitleOf(Pages[k]).Highlighted?
  {
    var p := Pages[k];
    assert p.secondTitle[..|p.highlightedText|] == p.highlightedText;
    OpensSecondLine(p);
  }

  /** The page indicators: one per page, selected exactly at the current page. */
  function Indicators(pageCount: nat, page: int): (sel: seq<bool>)
    ensures |sel| == pageCount
    ensures forall i :: 0 <= i < pageCount ==> (sel[i] <==> i == page)
  {
    seq(pageCount, i => i == page)
  }

  function CountSelected(sel: seq<bool>): (n: nat)
    ensures n <= |sel|
  {
    if sel == [] then 0 else CountSelected(sel[..|sel| - 1]) + (if sel[|sel| - 1] then 1 else 0)
  }

  /** On a page in range exactly one indicator is selected; on a page out of range none is. */
  lemma {:induction false} ExactlyOneIndicator(pageCount: nat, page: int)
    ensures CountSelected(Indicators(pageCount, page)) == if 0 <= page < pageCount then 1 else 0
  {
    if pageCount > 0 {
      assert Indicators(pageCount, page)[..pageCount - 1] == Indicators(pageCount - 1, page);
      ExactlyOneIndicator(pageCount - 1, page);
    }
  }

  class OnboardingPager {
    var page: int
    /** onFinished has been called. */
    var finished: bool

    /** The page stays within the pages, and finishing happens on the last one. */
    ghost predicate Valid()
      reads this
    {
      0 <= page <= LastIndex && (finished ==> page == LastIndex)
    }

    constructor ()
      ensures Valid() && page == 0 && !finished
    {
      page := 0;
      finished := false;
    }

    /** The navigation button: Next before the last page, Get Started on it. */
    method OnNavButton()
      requires Valid()
      modifies this
      ensures Valid()
      ensures old(page) < LastIndex ==> page == old(page) + 1 && finished == old(finished)
      ensures old(page) == LastIndex ==> page == old(page) && finished
    {
      if page < LastIndex {
        page := page + 1;
      } else {
        finished := true;
      }
    }
  }
}
