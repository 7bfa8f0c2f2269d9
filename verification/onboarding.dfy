/**
 * The onboarding wizard: five pages (location, profile, preferences, swap distance, trade)
 * behind a progress bar, then a trade preview and a success screen. The wizard owns the
 * data every page edits; the pages report changes through callbacks, modelled here as
 * events.
 */
module Onboarding {
  import opened JsText
  import CompleteProfile
  import Preferences
  import SwapDistance
  import CreateTrade
  import ProgressBar

  /** The index of the last page. */
  const LastStep: nat := 4

  /** The number of segments in the progress bar. */
  const TotalSteps: nat := 5

  /** The distance the slider starts at. */
  const InitialDistance: int := 4

  /** The wizard's state. */
  datatype Wizard = Wizard(
    step: nat,
    showSuccess: bool,
    showPreview: bool,
    location: String,
    profile: CompleteProfile.Profile,
    preferences: seq<Preferences.Preference>,
    swapDistance: int,
    trade: CreateTrade.Trade)

  /** Page 0, nothing chosen, the twelve preferences unselected, distance 4, an empty draft. */
  const InitialWizard: Wizard := Wizard(
    0, false, false, "", CompleteProfile.EmptyProfile, Preferences.InitialPreferences,
    InitialDistance, CreateTrade.EmptyTrade)

  /** Whether the page carousel is mounted, so that its ref is set. */
  predicate SwiperMounted(w: Wizard) {
    !w.showSuccess && !w.showPreview
  }

  /**
   * `handleNext`: with the carousel mounted and a page after the current one, it scrolls
   * by one and the index-change callback records the new page; otherwise nothing happens.
   */
  function HandleNext(w: Wizard): (r: Wizard)
    ensures SwiperMounted(w) && w.step < LastStep ==> r.step == w.step + 1
    ensures !(SwiperMounted(w) && w.step < LastStep) ==> r == w
    ensures r == w.(step := r.step)
  {
    if SwiperMounted(w) && w.step < LastStep then w.(step := w.step + 1) else w
  }

  /**
   * `handlePreferenceToggle`: only the preference list changes, entries keep their ids and
   * places, and a toggle the cap forbids changes nothing.
   */
  function HandlePreferenceToggle(w: Wizard, id: String): (r: Wizard)
    ensures |r.preferences| == |w.preferences|
    ensures forall i :: 0 <= i < |w.preferences| ==> r.preferences[i].id == w.preferences[i].id
    ensures !Preferences.ToggleAllowed(w.preferences, id) ==> r == w
    ensures r == w.(preferences := r.preferences)
  {
    w.(preferences := Preferences.Toggle(w.preferences, id))
  }

  /** `handlePublish`. */
  function HandlePublish(w: Wizard): (r: Wizard)
    ensures r.showSuccess
    ensures r == w.(showSuccess := true)
  {
    w.(showSuccess := true)
  }

  /** What the wizard draws. */
  datatype View =
    | SuccessView                                  // the success screen alone
    | PreviewView(trade: CreateTrade.Trade)        // the preview, with no progress bar
    | PagesView(step: nat, segments: seq<bool>)    // the progress bar above the carousel

  /**
   * The render: the success screen whenever `showSuccess` is set, whatever else holds;
   * otherwise the preview of the draft, or the progress bar over the pages.
   */
  function Render(w: Wizard): (v: View)
    ensures v.SuccessView? <==> w.showSuccess
    ensures v.PreviewView? <==> !w.showSuccess && w.showPreview
    ensures v.PreviewView? ==> v.trade == w.trade
    ensures v.PagesView? ==> v.step == w.step && |v.segments| == TotalSteps
    ensures v.PagesView? ==> forall i :: 0 <= i < TotalSteps ==> (v.segments[i] <==> i <= w.step)
  {
    if w.showSuccess then SuccessView
    else if w.showPreview then PreviewView(w.trade)
    else PagesView(w.step, ProgressBar.Segments(w.step, TotalSteps))
  }

  /** A callback reaching the wizard. */
  datatype Event =
    | Next                                      // a page's Continue
    | SelectLocation(location: String)          // the location page
    | UpdateProfile(profile: CompleteProfile.Profile)
    | TogglePreference(id: String)
    | SlideRelease(dx: real, sliderWidth: real) // the slider let go after moving by `dx`
    | UpdateTrade(trade: CreateTrade.Trade)
    | Preview                                   // the trade page's Preview
    | Back                                      // the preview's back button
    | Publish                                   // the preview's Publish
    | Finish                                    // the success screen's button

  /** Whether the screen that sends `e` is mounted. */
  predicate Reachable(w: Wizard, e: Event) {
    match e
    case Finish => w.showSuccess
    case Back => !w.showSuccess && w.showPreview
    case Publish => !w.showSuccess && w.showPreview
    case _ => SwiperMounted(w)
  }

  /**
   * Whether the page on show lets `e` through: each page's callbacks come from that page
   * only, the preferences page's Continue needs three selections, and Preview needs a
   * valid draft. The location page's Continue needs a chosen location, but its
   * current-location path continues without one, so a Continue there is always possible.
   * The profile page continues only through a verified code, which that page states of
   * itself (`CompleteProfile.ContinueOnlyThroughVerify`); the slider page's Continue is
   * never disabled.
   */
  predicate PageAllows(w: Wizard, e: Event) {
    match e
    case Next => w.step != 2 || Preferences.ContinueFires(w.preferences)
    case SelectLocation(_) => w.step == 0
    case UpdateProfile(_) => w.step == 1
    case TogglePreference(_) => w.step == 2
    case SlideRelease(_, _) => w.step == 3
    case UpdateTrade(_) => w.step == LastStep
    case Preview => w.step == LastStep && CreateTrade.PreviewFires(w.trade)
    case _ => true
  }

  /**
   * One event. An event from a screen that is not mounted, or that the page on show does
   * not let through, is ignored; `handleFinish` has an empty body. The slider reports the
   * stop nearest to where it was let go, starting from the distance the wizard holds.
   */
  function Step(w: Wizard, e: Event): (r: Wizard)
    ensures !Reachable(w, e) || !PageAllows(w, e) ==> r == w
    ensures e.Finish? ==> r == w
    ensures r.step == w.step || (e.Next? && r.step == w.step + 1 <= LastStep)
    ensures e.Next? && w.step == 2 && !Preferences.ContinueFires(w.preferences) ==> r == w
    ensures r.showPreview && !w.showPreview ==> w.step == LastStep && CreateTrade.PreviewFires(w.trade)
  {
    if !Reachable(w, e) || !PageAllows(w, e) then w
    else match e
      case Next => HandleNext(w)
      case SelectLocation(location) => w.(location := location)
      case UpdateProfile(profile) => w.(profile := profile)
      case TogglePreference(id) => HandlePreferenceToggle(w, id)
      case SlideRelease(dx, sliderWidth) =>
        if sliderWidth > 0.0 then
          var s := SwapDistance.ReleaseSlider(SwapDistance.Slider(InitialDistance, w.swapDistance), dx, sliderWidth);
          w.(swapDistance := s.distance)
        else w
      case UpdateTrade(trade) => w.(trade := trade)
      case Preview => w.(showPreview := true)
      case Back => w.(showPreview := false)
      case Publish => HandlePublish(w)
      case Finish => w
  }

  function Run(w: Wizard, events: seq<Event>): Wizard
    decreases |events|
  {
    if events == [] then w else Run(Step(w, events[0]), events[1..])
  }

  /** What every reachable wizard satisfies. */
  ghost predicate Valid(w: Wizard) {
    && w.step <= LastStep
    && Preferences.WithinCap(w.preferences)
    && 1 <= w.swapDistance <= 5
  }

  lemma InitialValid()
    ensures Valid(InitialWizard)
  {
    Preferences.InitialWithinCap();
  }

  /** The wizard opens on the first page with only the first segment lit. */
  lemma InitialRender()
    ensures Render(InitialWizard) == PagesView(0, [true, false, false, false, false])
  {
    var segments := ProgressBar.Segments(0, TotalSteps);
    assert |segments| == 5;
    assert segments[0] && !segments[1] && !segments[2] && !segments[3] && !segments[4];
    assert segments == [true, false, false, false, false];
  }

  /** One event keeps the wizard valid. */
  lemma StepKeepsValid(w: Wizard, e: Event)
    requires Valid(w)
    ensures Valid(Step(w, e))
  {
    if e.TogglePreference? {
      Preferences.ToggleKeepsCap(w.preferences, e.id);
    }
  }

  /**
   * Any run from a valid wizard stays valid: the page index never passes 4, at most three
   * preferences are selected, and the swap distance stays between 1 and 5. The page index
   * never decreases.
   */
  lemma {:induction false} RunKeepsValid(w: Wizard, events: seq<Event>)
    requires Valid(w)
    ensures Valid(Run(w, events))
    ensures w.step <= Run(w, events).step
    decreases |events|
  {
    if events != [] {
      StepKeepsValid(w, events[0]);
      RunKeepsValid(Step(w, events[0]), events[1..]);
    }
  }

  /** Whatever happens during onboarding, the invariants hold. */
  lemma OnboardingStaysValid(events: seq<Event>)
    ensures Valid(Run(InitialWizard, events))
    ensures Preferences.SelectedCount(Run(InitialWizard, events).preferences) <= Preferences.MaxSelected
  {
    InitialValid();
    RunKeepsValid(InitialWizard, events);
  }

  /** Once published, nothing changes the wizard again and the success screen stays up. */
  lemma {:induction false} SuccessIsFinal(w: Wizard, events: seq<Event>)
    requires w.showSuccess
    ensures Run(w, events) == w
    ensures Render(Run(w, events)) == SuccessView
    decreases |events|
  {
    if events != [] {
      SuccessIsFinal(Step(w, events[0]), events[1..]);
    }
  }

  /** Preview then back returns to the pages, with the progress bar shown again. */
  lemma PreviewBackRestores(w: Wizard)
    requires SwiperMounted(w) && w.step == LastStep && CreateTrade.PreviewFires(w.trade)
    ensures Render(Step(w, Preview)).PreviewView?
    ensures Step(Step(w, Preview), Back) == w
    ensures Render(Step(Step(w, Preview), Back)).PagesView?
  {
  }

  /**
   * With three preferences selected, four presses of Continue from the first page reach
   * the trade page, and a fifth does nothing.
   */
  lemma ContinueReachesTradePage(w: Wizard)
    requires SwiperMounted(w) && w.step == 0 && Preferences.ContinueFires(w.preferences)
    ensures Run(w, [Next, Next, Next, Next]).step == LastStep
    ensures Run(w, [Next, Next, Next, Next, Next]).step == LastStep
  {
    var w4 := w.(step := 4);
    assert Run(w, [Next, Next, Next, Next]) == w4 by {
      assert [Next, Next, Next, Next][1..] == [Next, Next, Next];
      assert [Next, Next, Next][1..] == [Next, Next];
      assert [Next, Next][1..] == [Next];
    }
    assert Run(w, [Next, Next, Next, Next, Next]) == w4 by {
      assert [Next, Next, Next, Next, Next][1..] == [Next, Next, Next, Next];
      assert [Next, Next, Next, Next][1..] == [Next, Next, Next];
      assert [Next, Next, Next][1..] == [Next, Next];
      assert [Next, Next][1..] == [Next];
    }
  }

  /** Without three preferences selected, Continue alone stops on the preferences page. */
  lemma ContinueStopsAtPreferences(w: Wizard)
    requires SwiperMounted(w) && w.step == 0 && !Preferences.ContinueFires(w.preferences)
    ensures Run(w, [Next, Next, Next]).step == 2
  {
    assert Run(w, [Next, Next, Next]) == w.(step := 2) by {
      assert [Next, Next, Next][1..] == [Next, Next];
      assert [Next, Next][1..] == [Next];
    }
  }

  /** From the start, where nothing is selected, Continue alone stops on the preferences page. */
  lemma StartStopsAtPreferences()
    ensures Run(InitialWizard, [Next, Next, Next]).step == 2
  {
    Preferences.InitialWithinCap();
    ContinueStopsAtPreferences(InitialWizard);
  }

  /**
   * On the preferences page with two preferences selected, Continue is refused and the
   * step stays at 2; selecting a third (ids being unique) lets the next Continue move
   * the wizard on to the slider page.
   */
  lemma PreferencesPageGatesContinue(w: Wizard, k: nat)
    requires SwiperMounted(w) && w.step == 2
    requires Preferences.UniqueIds(w.preferences)
    requires Preferences.SelectedCount(w.preferences) == 2
    requires k < |w.preferences| && !w.preferences[k].selected
    ensures Step(w, Next) == w
    ensures Step(Step(w, TogglePreference(w.preferences[k].id)), Next).step == 3
  {
    var w1 := Step(w, TogglePreference(w.preferences[k].id));
    ThirdSelection(w, k);
    NextLeavesPreferences(w1);
  }

  /** Selecting a third preference on the preferences page keeps the wizard there, ready to continue. */
  lemma ThirdSelection(w: Wizard, k: nat)
    requires SwiperMounted(w) && w.step == 2
    requires Preferences.UniqueIds(w.preferences)
    requires Preferences.SelectedCount(w.preferences) == 2
    requires k < |w.preferences| && !w.preferences[k].selected
    ensures var w1 := Step(w, TogglePreference(w.preferences[k].id));
      SwiperMounted(w1) && w1.step == 2 && Preferences.ContinueFires(w1.preferences)
  {
    var w1 := Step(w, TogglePreference(w.preferences[k].id));
    assert w1 == w.(preferences := Preferences.Toggle(w.preferences, w.preferences[k].id));
    Preferences.ToggleUnselectedAddsOne(w.preferences, k);
  }

  /** A Continue the preferences page lets through moves on to the slider page. */
  lemma NextLeavesPreferences(w: Wizard)
    requires SwiperMounted(w) && w.step == 2 && Preferences.ContinueFires(w.preferences)
    ensures Step(w, Next) == w.(step := 3)
  {
  }

  // ---------------------------------------------------------------------------
  // The carousel's page after the preview closes
  // ---------------------------------------------------------------------------

  /**
   * The wizard's step next to the page the carousel shows. The carousel is unmounted
   * while the preview is up.
   */
  datatype Pager = Pager(step: nat, page: nat, showPreview: bool)

  /** The three callbacks that move between pages. */
  datatype PagerEvent =
    | PageContinue     // Continue on one of pages 0 to 3
    | PageOpenPreview  // Preview on the trade page
    | PageBack         // the preview's back button

  /** Pages 0 to 3 carry a Continue button; `scrollBy(1)` moves on and reports the new index as the step. */
  function PagerContinue(p: Pager): (r: Pager)
    ensures r == p || (r.page == p.page + 1 && r.step == r.page && r.showPreview == p.showPreview)
    ensures !p.showPreview && p.page < LastStep && p.step < LastStep ==> r.page == p.page + 1
  {
    if !p.showPreview && p.page < LastStep && p.step < LastStep then Pager(p.page + 1, p.page + 1, false) else p
  }

  /** The trade page's Preview raises the preview. */
  function PagerOpenPreview(p: Pager): (r: Pager)
    ensures r.showPreview <==> p.showPreview || p.page == LastStep
    ensures r.step == p.step && r.page == p.page
  {
    if !p.showPreview && p.page == LastStep then p.(showPreview := true) else p
  }

  /**
   * As written: the carousel has no `index` prop, so when the preview closes it mounts
   * again on page 0, and `currentStep` keeps its value.
   */
  function PagerStepAsWritten(p: Pager, e: PagerEvent): (r: Pager)
    ensures e.PageBack? && p.showPreview ==> r == Pager(p.step, 0, false)
    ensures !(e.PageBack? && p.showPreview) ==> r == PagerStep(p, e)
    ensures e.PageBack? && p.showPreview ==> (r == PagerStep(p, e) <==> p.step == 0)
  {
    match e
    case PageContinue => PagerContinue(p)
    case PageOpenPreview => PagerOpenPreview(p)
    case PageBack => if p.showPreview then Pager(p.step, 0, false) else p
  }

  /**
   * Corrected: the carousel is given the step as its starting index, so it comes back on
   * the page the wizard records.
   */
  function PagerStep(p: Pager, e: PagerEvent): (r: Pager)
    ensures e.PageBack? && p.showPreview ==> r == Pager(p.step, p.step, false)
    ensures p.page == p.step ==> r.page == r.step
  {
    match e
    case PageContinue => PagerContinue(p)
    case PageOpenPreview => PagerOpenPreview(p)
    case PageBack => if p.showPreview then Pager(p.step, p.step, false) else p
  }

  function PagerRunAsWritten(p: Pager, events: seq<PagerEvent>): Pager
    decreases |events|
  {
    if events == [] then p else PagerRunAsWritten(PagerStepAsWritten(p, events[0]), events[1..])
  }

  function PagerRun(p: Pager, events: seq<PagerEvent>): Pager
    decreases |events|
  {
    if events == [] then p else PagerRun(PagerStep(p, events[0]), events[1..])
  }

  /**
   * As written, Preview then Back from the trade page lands on the location page with the
   * step still 4, and from there no sequence of presses moves the carousel again: the
   * `currentStep < 4` guard refuses every Continue.
   */
  lemma {:induction false} BackFromPreviewStrands(events: seq<PagerEvent>)
    ensures PagerRunAsWritten(Pager(LastStep, LastStep, false), [PageOpenPreview, PageBack]) == Pager(LastStep, 0, false)
    ensures PagerRunAsWritten(Pager(LastStep, 0, false), events) == Pager(LastStep, 0, false)
    decreases |events|
  {
    assert [PageOpenPreview, PageBack][1..] == [PageBack];
    if events != [] {
      BackFromPreviewStrands(events[1..]);
    }
  }

  /** Corrected, the page shown is the step recorded, over any run. */
  lemma {:induction false} PagerStaysInStep(p: Pager, events: seq<PagerEvent>)
    requires p.page == p.step
    ensures PagerRun(p, events).page == PagerRun(p, events).step
    decreases |events|
  {
    if events != [] {
      PagerStaysInStep(PagerStep(p, events[0]), events[1..]);
    }
  }

  /** Corrected, Preview then Back from the trade page returns to the trade page. */
  lemma PagerBackRestores(p: Pager)
    requires p == Pager(LastStep, LastStep, false)
    ensures PagerRun(p, [PageOpenPreview, PageBack]) == p
  {
    assert [PageOpenPreview, PageBack][1..] == [PageBack];
  }
}
