/**
 * The builder page's tab navigation: a fixed order of seven tabs, and next / previous buttons
 * that move one step along it, stopping at either end. A tab id that is not in the list counts
 * as index -1, from which both buttons lead to the first tab.
 */
module Builder {
  import opened Seqs

  const Tabs: seq<string> := ["personal", "summary", "experience", "education", "skills", "templates", "settings"]

  const InitialTab := "personal"

  lemma TabsDistinct()
    ensures NoDuplicates(Tabs) && |Tabs| == 7
  {
  }

  /** `tabs[Math.min(tabs.findIndex(t => t.id === active) + 1, tabs.length - 1)].id`. */
  function NextTab(active: string): (r: string)
    ensures r in Tabs
  {
    var i := IndexOf(Tabs, active);
    Tabs[if i + 1 < |Tabs| - 1 then i + 1 else |Tabs| - 1]
  }

  /** `tabs[Math.max(tabs.findIndex(t => t.id === active) - 1, 0)].id`. */
  function PrevTab(active: string): (r: string)
    ensures r in Tabs
  {
    var i := IndexOf(Tabs, active);
    Tabs[if i - 1 > 0 then i - 1 else 0]
  }

  /** Next moves one place along, and stays on the last tab. */
  lemma NextTabSteps(k: nat)
    requires k < |Tabs|
    ensures k < |Tabs| - 1 ==> NextTab(Tabs[k]) == Tabs[k + 1]
    ensures k == |Tabs| - 1 ==> NextTab(Tabs[k]) == Tabs[k]
  {
    TabsDistinct();
    IndexOfDistinct(Tabs, k);
  }

  /** Previous moves one place back, and stays on the first tab. */
  lemma PrevTabSteps(k: nat)
    requires k < |Tabs|
    ensures k > 0 ==> PrevTab(Tabs[k]) == Tabs[k - 1]
    ensures k == 0 ==> PrevTab(Tabs[k]) == Tabs[k]
  {
    TabsDistinct();
    IndexOfDistinct(Tabs, k);
  }

  /** Off the list, both buttons lead to `personal`. */
  lemma UnknownTab(active: string)
    requires active !in Tabs
    ensures NextTab(active) == "personal" && PrevTab(active) == "personal"
  {
  }

  /** Previous then next comes back to any tab but the first; next then previous to any but the last. */
  lemma NextPrevInverse(t: string)
    requires t in Tabs
    ensures t != Tabs[0] ==> NextTab(PrevTab(t)) == t
    ensures t != Tabs[|Tabs| - 1] ==> PrevTab(NextTab(t)) == t
  {
    var k := IndexOf(Tabs, t);
    PrevTabSteps(k);
    NextTabSteps(k);
    if k > 0 {
      NextTabSteps(k - 1);
    }
    if k < |Tabs| - 1 {
      PrevTabSteps(k + 1);
    }
  }

  /** The page's own state: the tab on show. */
  class ResumeBuilder {
    var activeTab: string

    constructor()
      ensures activeTab == InitialTab
    {
      activeTab := InitialTab;
    }

    method HandleNext()
      modifies this
      ensures activeTab == NextTab(old(activeTab))
    {
      activeTab := NextTab(activeTab);
    }

    method HandlePrevious()
      modifies this
      ensures activeTab == PrevTab(old(activeTab))
    {
      activeTab := PrevTab(activeTab);
    }

    /** The tab strip's `onValueChange`. */
    method SetActiveTab(tab: string)
      modifies this
      ensures activeTab == tab
    {
      activeTab := tab;
    }
  }
}
