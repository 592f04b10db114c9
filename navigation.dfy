/**
 * The dashboard's navigation stack (components/DashboardPage.tsx). A view is a page name and
 * the `id` parameter of drill-down pages; the last view of the stack is the one rendered.
 */
module Navigation {
  import opened Wrappers
  import Text

  datatype View = View(page: string, id: Option<int>)

  /** The six sections of the side bar; navigating to one of them starts a fresh history. */
  const TopLevelPages: seq<string> := ["dashboard", "animals", "keepers", "vets", "habitats", "feeding"]

  predicate IsTopLevel(page: string)
  {
    page in TopLevelPages
  }

  /** The stack the dashboard starts with. */
  const InitialStack: seq<View> := [View("dashboard", None)]

  /** `navigateTo`: a section page replaces the stack, any other page is pushed. */
  function Navigate(stack: seq<View>, v: View): seq<View>
  {
    if IsTopLevel(v.page) then [v] else stack + [v]
  }

  /** `navigateBack`: pops one view unless only the root is left. */
  function Back(stack: seq<View>): seq<View>
  {
    if |stack| > 1 then stack[..|stack| - 1] else stack
  }

  /**
   * The shape every reachable stack has: never empty, a section page at the bottom and only
   * drill-down pages above it.
   */
  ghost predicate WellFormed(stack: seq<View>)
  {
    && |stack| > 0
    && IsTopLevel(stack[0].page)
    && forall i :: 1 <= i < |stack| ==> !IsTopLevel(stack[i].page)
  }

  lemma InitialWellFormed()
    ensures WellFormed(InitialStack)
  {
  }

  /** A section page resets the history to itself alone; anything else is pushed on top. */
  lemma NavigateShape(stack: seq<View>, v: View)
    ensures IsTopLevel(v.page) ==> Navigate(stack, v) == [v]
    ensures !IsTopLevel(v.page) ==>
      |Navigate(stack, v)| == |stack| + 1 &&
      Navigate(stack, v)[..|stack|] == stack &&
      Navigate(stack, v)[|stack|] == v
  {
  }

  /** Back pops exactly the top when there is more than one view, and is a no-op on the root. */
  lemma BackShape(stack: seq<View>)
    ensures |stack| <= 1 ==> Back(stack) == stack
    ensures |stack| > 1 ==>
      |Back(stack)| == |stack| - 1 && forall i :: 0 <= i < |stack| - 1 ==> Back(stack)[i] == stack[i]
  {
  }

  /** Going to a drill-down page and back restores the previous stack exactly. */
  lemma NavigateThenBack(stack: seq<View>, v: View)
    requires WellFormed(stack) && !IsTopLevel(v.page)
    ensures Back(Navigate(stack, v)) == stack
  {
    assert (stack + [v])[..|stack|] == stack;
  }

  lemma NavigatePreserves(stack: seq<View>, v: View)
    requires WellFormed(stack)
    ensures WellFormed(Navigate(stack, v))
  {
  }

  lemma BackPreserves(stack: seq<View>)
    requires WellFormed(stack)
    ensures WellFormed(Back(stack))
  {
  }

  /** The rendered view. */
  function Current(stack: seq<View>): View
    requires |stack| > 0
  {
    stack[|stack| - 1]
  }

  /** `getActiveNavId`: the section whose name fragment the current page contains. */
  function ActiveNavId(page: string): (r: string)
    ensures r in TopLevelPages
    ensures Text.Contains(page, "animal") ==> r == "animals"
    ensures r == "animals" ==> Text.Contains(page, "animal")
    ensures r == "keepers" ==> Text.Contains(page, "keeper")
    ensures r == "vets" ==> Text.Contains(page, "vet")
    ensures r == "habitats" ==> Text.Contains(page, "habitat")
    ensures r == "feeding" ==> Text.Contains(page, "feeding")
    ensures r == "dashboard" <==>
      !Text.Contains(page, "animal") && !Text.Contains(page, "keeper") && !Text.Contains(page, "vet") &&
      !Text.Contains(page, "habitat") && !Text.Contains(page, "feeding")
  {
    if Text.Contains(page, "animal") then "animals"
    else if Text.Contains(page, "keeper") then "keepers"
    else if Text.Contains(page, "vet") then "vets"
    else if Text.Contains(page, "habitat") then "habitats"
    else if Text.Contains(page, "feeding") then "feeding"
    else "dashboard"
  }

  /** The dashboard page matches no section fragment and falls back to itself. */
  lemma ActiveNavOfDashboard()
    ensures ActiveNavId("dashboard") == "dashboard"
  {
    Text.AbsentCharNotContained("dashboard", "animal", 1);
    Text.AbsentCharNotContained("dashboard", "keeper", 0);
    Text.AbsentCharNotContained("dashboard", "vet", 0);
    Text.AbsentCharNotContained("dashboard", "habitat", 3);
    Text.AbsentCharNotContained("dashboard", "feeding", 0);
  }

  /** The animal pages light up the animals section. */
  lemma ActiveNavOfAnimalPages()
    ensures ActiveNavId("animals") == "animals"
    ensures ActiveNavId("animalDetails") == "animals" && ActiveNavId("animalForm") == "animals"
  {
    assert "animals"[..6] == "animal";
    Text.PrefixContained("animals", "animal");
    assert "animalDetails"[..6] == "animal";
    Text.PrefixContained("animalDetails", "animal");
    assert "animalForm"[..6] == "animal";
    Text.PrefixContained("animalForm", "animal");
  }

  /** A keeper page name matches no animal and starts with "keeper". */
  lemma KeeperPageNav(page: string)
    requires |page| >= 6 && page[..6] == "keeper"
    requires 'n' !in page
    ensures ActiveNavId(page) == "keepers"
  {
    Text.AbsentCharNotContained(page, "animal", 1);
    Text.PrefixContained(page, "keeper");
  }

  /** The keeper pages light up the keepers section. */
  lemma ActiveNavOfKeeperPages()
    ensures ActiveNavId("keepers") == "keepers"
    ensures ActiveNavId("keeperDetails") == "keepers" && ActiveNavId("keeperForm") == "keepers"
  {
    assert "keepers"[..6] == "keeper";
    KeeperPageNav("keepers");
    assert "keeperDetails"[..6] == "keeper";
    KeeperPageNav("keeperDetails");
    assert "keeperForm"[..6] == "keeper";
    KeeperPageNav("keeperForm");
  }

  /** A vet page name matches neither animal nor keeper, and starts with "vet". */
  lemma VetPageNav(page: string)
    requires |page| >= 3 && page[..3] == "vet"
    requires 'n' !in page && 'k' !in page
    ensures ActiveNavId(page) == "vets"
  {
    Text.AbsentCharNotContained(page, "animal", 1);
    Text.AbsentCharNotContained(page, "keeper", 0);
    Text.PrefixContained(page, "vet");
  }

  /** The vet pages light up the vets section. */
  lemma ActiveNavOfVetPages()
    ensures ActiveNavId("vets") == "vets"
    ensures ActiveNavId("vetDetails") == "vets" && ActiveNavId("vetForm") == "vets"
  {
    assert "vets"[..3] == "vet";
    VetPageNav("vets");
    assert "vetDetails"[..3] == "vet";
    VetPageNav("vetDetails");
    assert "vetForm"[..3] == "vet";
    VetPageNav("vetForm");
  }

  /** A habitat page name matches neither animal, keeper nor vet, and starts with "habitat". */
  lemma HabitatPageNav(page: string)
    requires |page| >= 7 && page[..7] == "habitat"
    requires 'n' !in page && 'k' !in page && 'v' !in page
    ensures ActiveNavId(page) == "habitats"
  {
    Text.AbsentCharNotContained(page, "animal", 1);
    Text.AbsentCharNotContained(page, "keeper", 0);
    Text.AbsentCharNotContained(page, "vet", 0);
    Text.PrefixContained(page, "habitat");
  }

  /** The habitat pages light up the habitats section. */
  lemma ActiveNavOfHabitatPages()
    ensures ActiveNavId("habitats") == "habitats"
    ensures ActiveNavId("habitatDetails") == "habitats" && ActiveNavId("habitatForm") == "habitats"
  {
    assert "habitats"[..7] == "habitat";
    HabitatPageNav("habitats");
    assert "habitatDetails"[..7] == "habitat";
    HabitatPageNav("habitatDetails");
    assert "habitatForm"[..7] == "habitat";
    HabitatPageNav("habitatForm");
  }

  /** A feeding page name matches no other section and starts with "feeding". */
  lemma FeedingPageNav(page: string)
    requires |page| >= 7 && page[..7] == "feeding"
    requires 'm' !in page && 'k' !in page && 'v' !in page && 'h' !in page
    ensures ActiveNavId(page) == "feeding"
  {
    Text.AbsentCharNotContained(page, "animal", 3);
    Text.AbsentCharNotContained(page, "keeper", 0);
    Text.AbsentCharNotContained(page, "vet", 0);
    Text.AbsentCharNotContained(page, "habitat", 0);
    Text.PrefixContained(page, "feeding");
  }

  /** The feeding section and the plan details page light up the feeding section. */
  lemma ActiveNavOfFeedingPages()
    ensures ActiveNavId("feeding") == "feeding"
    ensures ActiveNavId("feedingPlanDetails") == "feeding"
  {
    assert "feeding"[..7] == "feeding";
    FeedingPageNav("feeding");
    assert "feedingPlanDetails"[..7] == "feeding";
    FeedingPageNav("feedingPlanDetails");
  }

  /**
   * The plan form lights up the feeding section too: every letter of "animal" occurs in its
   * name, but never an "n" followed by an "i".
   */
  lemma ActiveNavOfFeedingForm()
    ensures ActiveNavId("feedingPlanForm") == "feeding"
  {
    var page := "feedingPlanForm";
    forall j | 0 <= j < |page| - 1
      ensures page[j] != 'n' || page[j + 1] != 'i'
    {
    }
    Text.AbsentPairNotContained(page, "animal", 1);
    Text.AbsentCharNotContained(page, "keeper", 0);
    Text.AbsentCharNotContained(page, "vet", 0);
    Text.AbsentCharNotContained(page, "habitat", 0);
    assert page[..7] == "feeding";
    Text.PrefixContained(page, "feeding");
  }
}
