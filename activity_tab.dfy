/**
 * The activity tab of a component's details page: which secondary tab
 * ("latest-commits" or "pipelineruns") is shown, how it is worked out from the
 * route and from the value remembered in local storage, and the three steps
 * that keep route, storage and router history in step with each other.
 */
module ComponentActivityTab {
  import opened Optional
  import opened Text

  /** The storage key suffix shared by every component. */
  const ActivitySecondaryTabKey: string := "activity-secondary-tab"

  /** The tab shown when neither the route nor storage names one. */
  const DefaultTab: string := "latest-commits"

  /** The pipeline-run label that holds the pipeline's type. */
  const PipelineTypeLabel: string := "pipelines.appstudio.openshift.io/type"

  /** JavaScript truthiness of an optional string: absent and "" are falsy. */
  predicate Truthy(v: Option<string>)
  {
    v.Some? && v.value != ""
  }

  /** JavaScript's `a || b` on optional strings. */
  function JsOr(a: Option<string>, b: Option<string>): (r: Option<string>)
    ensures r == a || r == b
    ensures Truthy(r) <==> Truthy(a) || Truthy(b)
    ensures Truthy(a) ==> r == a
    ensures !Truthy(a) ==> r == b
  {
    if Truthy(a) then a else b
  }

  // ---------------------------------------------------------------------------
  // Storage key

  /**
   * The local-storage key for a component's last selected tab: the
   * component's name, an underscore and the shared suffix, or the bare suffix
   * while there is no component.
   */
  function StorageKey(componentName: Option<string>): (key: string)
    ensures HasSuffix(ActivitySecondaryTabKey, key)
    ensures componentName.None? <==> key == ActivitySecondaryTabKey
    ensures componentName.Some? ==> HasPrefix(componentName.value + "_", key)
    ensures componentName.Some? ==> |key| == |componentName.value| + 1 + |ActivitySecondaryTabKey|
  {
    (if componentName.Some? then componentName.value + "_" else "") + ActivitySecondaryTabKey
  }

  /** Distinct components (and "no component") never share a key. */
  lemma {:induction false} StorageKeyInjective(a: Option<string>, b: Option<string>)
    ensures StorageKey(a) == StorageKey(b) ==> a == b
  {
    if StorageKey(a) == StorageKey(b) && a.Some? && b.Some? {
      ConcatCancelRight(a.value + "_", b.value + "_", ActivitySecondaryTabKey);
      ConcatCancelRight(a.value, b.value, "_");
    }
  }

  /** The value stored under `key`, if any. */
  function Lookup(storage: map<string, string>, key: string): (v: Option<string>)
    ensures v.Some? <==> key in storage
    ensures v.Some? ==> storage[key] == v.value
  {
    if key in storage then Some(storage[key]) else None
  }

  /** What is written under a key is read back from it, and every other key reads as before. */
  lemma LookupAfterWrite(storage: map<string, string>, key: string, value: string, other: string)
    ensures Lookup(storage[key := value], key) == Some(value)
    ensures other != key ==> Lookup(storage[key := value], other) == Lookup(storage, other)
  {
  }

  /**
   * Writing one component's tab leaves every other component's remembered
   * tab as it was.
   */
  lemma StorageIsolation(storage: map<string, string>, a: Option<string>, b: Option<string>, tab: string)
    requires a != b
    ensures Lookup(storage[StorageKey(a) := tab], StorageKey(b)) == Lookup(storage, StorageKey(b))
  {
    StorageKeyInjective(a, b);
  }

  // ---------------------------------------------------------------------------
  // Resolution of the current tab

  /**
   * `activityTab || lastSelectedTab || 'latest-commits'`: the route's tab if
   * it is non-empty, else the stored tab if that is non-empty, else the
   * default. The result is one of the three and never empty.
   */
  function CurrentTab(activityTab: Option<string>, lastSelectedTab: Option<string>): (tab: string)
    ensures tab != ""
    ensures Truthy(activityTab) ==> tab == activityTab.value
    ensures !Truthy(activityTab) && Truthy(lastSelectedTab) ==> tab == lastSelectedTab.value
    ensures !Truthy(activityTab) && !Truthy(lastSelectedTab) ==> tab == DefaultTab
    ensures Some(tab) == activityTab || Some(tab) == lastSelectedTab || tab == DefaultTab
  {
    JsOr(JsOr(activityTab, lastSelectedTab), Some(DefaultTab)).value
  }

  // ---------------------------------------------------------------------------
  // Routes

  /** Everything of an activity-tab route up to the tab itself. */
  function ActivityRoutePrefix(workspace: string, application: string, component: string): string
  {
    "/workspaces/" + workspace + "/applications/" + application + "/components/" + component + "/activity/"
  }

  /**
   * A tab that fits in one path segment: no `/` (which starts a new segment),
   * `?` (which starts the query) or `#` (which starts the fragment).
   */
  predicate IsSegment(tab: string)
  {
    forall i :: 0 <= i < |tab| ==> tab[i] != '/' && tab[i] != '?' && tab[i] != '#'
  }

  /**
   * The tab that an activity route names, as the router reads the optional
   * last segment: what follows the route prefix when that is one non-empty
   * segment, or None for the bare prefix (the segment is left out) and for a
   * path that is not an activity route of this component.
   */
  function TabOfActivityRoute(workspace: string, application: string, component: string, path: string): (tab: Option<string>)
    ensures tab.Some? <==> HasPrefix(ActivityRoutePrefix(workspace, application, component), path) &&
                           |path| > |ActivityRoutePrefix(workspace, application, component)| &&
                           IsSegment(path[|ActivityRoutePrefix(workspace, application, component)|..])
    ensures tab.Some? ==> ActivityRoutePrefix(workspace, application, component) + tab.value == path
    ensures tab.Some? ==> IsSegment(tab.value) && tab.value != ""
  {
    var rest := StripPrefix(ActivityRoutePrefix(workspace, application, component), path);
    if rest.Some? && rest.value != "" && IsSegment(rest.value) then rest else None
  }

  /**
   * `/workspaces/{ws}/applications/{app}/components/{comp}/activity/{tab}`:
   * the route prefix followed by exactly the tab, so it ends in "/activity/"
   * and the tab; the router reads a non-empty one-segment tab back as the tab
   * it was built from.
   */
  function ActivityTabRoute(workspace: string, application: string, component: string, tab: string): (path: string)
    ensures StripPrefix(ActivityRoutePrefix(workspace, application, component), path) == Some(tab)
    ensures HasSuffix("/activity/" + tab, path)
    ensures IsSegment(tab) && tab != "" ==> TabOfActivityRoute(workspace, application, component, path) == Some(tab)
  {
    var head := "/workspaces/" + workspace + "/applications/" + application + "/components/" + component;
    var path := ActivityRoutePrefix(workspace, application, component) + tab;
    assert path == head + ("/activity/" + tab);
    assert path[|path| - |"/activity/" + tab|..] == "/activity/" + tab;
    StripPrefixOfConcat(ActivityRoutePrefix(workspace, application, component), tab);
    path
  }

  /** Different tabs of one component have different routes. */
  lemma ActivityTabRouteInjective(workspace: string, application: string, component: string, t1: string, t2: string)
    requires t1 != t2
    ensures ActivityTabRoute(workspace, application, component, t1) != ActivityTabRoute(workspace, application, component, t2)
  {
  }

  // ---------------------------------------------------------------------------
  // What the two effects decide

  /**
   * The value the storage-sync effect writes, if it writes: it writes the
   * current tab exactly when the route's tab and the stored tab differ, so a
   * route tab that is present wins over the stored one.
   */
  function SyncWrite(activityTab: Option<string>, lastSelectedTab: Option<string>): (written: Option<string>)
    ensures written.Some? <==> activityTab != lastSelectedTab
    ensures written.Some? && Truthy(activityTab) ==> written == activityTab
    ensures written.Some? && !Truthy(activityTab) && Truthy(lastSelectedTab) ==> written == lastSelectedTab
    ensures written.Some? && !Truthy(activityTab) && !Truthy(lastSelectedTab) ==> written == Some(DefaultTab)
  {
    if activityTab != lastSelectedTab then Some(CurrentTab(activityTab, lastSelectedTab)) else None
  }

  /** The write of the sync effect never changes which tab is shown. */
  lemma SyncWriteKeepsCurrentTab(activityTab: Option<string>, lastSelectedTab: Option<string>)
    requires SyncWrite(activityTab, lastSelectedTab).Some?
    ensures CurrentTab(activityTab, SyncWrite(activityTab, lastSelectedTab)) == CurrentTab(activityTab, lastSelectedTab)
  {
  }

  /**
   * The tab the redirect effect navigates to, if it navigates: the stored tab,
   * exactly when the route has no tab and storage has a non-empty one. It is
   * then the tab already shown.
   */
  function RedirectTab(activityTab: Option<string>, lastSelectedTab: Option<string>): (target: Option<string>)
    ensures target.Some? <==> !Truthy(activityTab) && Truthy(lastSelectedTab)
    ensures target.Some? ==> target == lastSelectedTab
    ensures target.Some? ==> target.value == CurrentTab(activityTab, lastSelectedTab)
  {
    if !Truthy(activityTab) && lastSelectedTab.Some? && lastSelectedTab.value != "" then lastSelectedTab else None
  }

  /** When the route's tab and the stored tab agree, neither effect does anything. */
  lemma AgreementIsFixedPoint(activityTab: Option<string>, lastSelectedTab: Option<string>)
    requires activityTab == lastSelectedTab
    ensures SyncWrite(activityTab, lastSelectedTab).None?
    ensures RedirectTab(activityTab, lastSelectedTab).None?
  {
  }

  /**
   * A route without a tab and a stored one-segment tab: the pass redirects
   * to the stored tab's route and rewrites the same value; once the route
   * carries that tab, the next pass writes nothing and navigates nowhere.
   */
  lemma RedirectReachesFixedPoint(
    workspace: string, application: string, component: string,
    activityTab: Option<string>, stored: string)
    requires !Truthy(activityTab) && stored != "" && IsSegment(stored)
    ensures RedirectTab(activityTab, Some(stored)) == Some(stored)
    ensures SyncWrite(activityTab, Some(stored)) == Some(stored)
    ensures var next := TabOfActivityRoute(workspace, application, component,
                                           ActivityTabRoute(workspace, application, component, stored));
            next == Some(stored) &&
            SyncWrite(next, Some(stored)).None? &&
            RedirectTab(next, Some(stored)).None?
  {
  }

  // ---------------------------------------------------------------------------
  // Pipeline-run filter

  datatype Param = Param(name: string, value: string)

  /** The parts of a pipeline run that the filter reads: its labels and its parameters. */
  datatype PipelineRun = PipelineRun(labels: Option<map<string, string>>, params: Option<seq<Param>>)

  /** `params.find((p) => p.name === name)`: the first parameter with that name. */
  function FindParam(params: seq<Param>, name: string): (found: Option<Param>)
    ensures found.Some? <==> exists i :: 0 <= i < |params| && params[i].name == name
    ensures found.Some? ==> exists i :: 0 <= i < |params| && params[i] == found.value && params[i].name == name &&
                                        forall j :: 0 <= j < i ==> params[j].name != name
  {
    if |params| == 0 then None
    else if params[0].name == name then Some(params[0])
    else
      var rest := FindParam(params[1..], name);
      assert forall i :: 1 <= i < |params| ==> params[i] == params[1..][i - 1];
      rest
  }

  /**
   * Keeps a pipeline run unless it is a test pipeline (its type label is
   * "test") that was run against a snapshot (it has a SNAPSHOT parameter).
   * A run without labels or without parameters is always kept.
   */
  function NonTestSnapshotFilter(plr: PipelineRun): (keep: bool)
    ensures !keep <==>
      && plr.labels.Some? && PipelineTypeLabel in plr.labels.value
      && plr.labels.value[PipelineTypeLabel] == "test"
      && plr.params.Some?
      && exists i :: 0 <= i < |plr.params.value| && plr.params.value[i].name == "SNAPSHOT"
    ensures plr.labels.None? || plr.params.None? ==> keep
  {
    var pipelineType := if plr.labels.Some? then Lookup(plr.labels.value, PipelineTypeLabel) else None;
    pipelineType != Some("test") || plr.params.None? || FindParam(plr.params.value, "SNAPSHOT").None?
  }

  // ---------------------------------------------------------------------------
  // The side-effecting steps

  /** One entry of the router history: the path and whether it replaced the current entry. */
  datatype Navigation = Navigation(path: string, replace: bool)

  /** `storage`, with `write` stored under `key` when there is one. */
  function ApplyWrite(storage: map<string, string>, key: string, write: Option<string>): map<string, string>
  {
    if write.Some? then storage[key := write.value] else storage
  }

  /**
   * One mounted activity tab: the route parameters and component it was
   * rendered for, and the outside state its steps act on (the route's tab,
   * local storage and the router history).
   */
  class ActivityTabView {
    const workspace: string
    const application: string
    /** The route's `componentName` parameter. */
    const routeComponentName: string
    /** `component.spec.componentName`, None while there is no component. */
    const specComponentName: Option<string>

    var routeTab: Option<string>
    var storage: map<string, string>
    var history: seq<Navigation>

    constructor (workspace: string, application: string, routeComponentName: string, specComponentName: Option<string>,
                 routeTab: Option<string>, storage: map<string, string>)
      ensures this.workspace == workspace && this.application == application
      ensures this.routeComponentName == routeComponentName && this.specComponentName == specComponentName
      ensures this.routeTab == routeTab && this.storage == storage && history == []
    {
      this.workspace := workspace;
      this.application := application;
      this.routeComponentName := routeComponentName;
      this.specComponentName := specComponentName;
      this.routeTab := routeTab;
      this.storage := storage;
      history := [];
    }

    function Key(): string
    {
      StorageKey(specComponentName)
    }

    /** `lastSelectedTab`: what storage holds under this component's key. */
    function LastSelectedTab(): Option<string>
      reads this
    {
      Lookup(storage, Key())
    }

    function Current(): string
      reads this
    {
      CurrentTab(routeTab, LastSelectedTab())
    }

    function Route(tab: string): string
    {
      ActivityTabRoute(workspace, application, routeComponentName, tab)
    }

    /**
     * The user picks `newTab`: one pushing navigation to its route when it
     * is not the current tab, nothing otherwise. Storage is never written.
     */
    method SetActiveTab(newTab: string)
      modifies this`history
      ensures history == old(history) + if old(Current()) != newTab then [Navigation(Route(newTab), false)] else []
      ensures storage == old(storage) && routeTab == old(routeTab)
    {
      if Current() != newTab {
        history := history + [Navigation(Route(newTab), false)];
      }
    }

    /**
     * The storage-sync effect, run with the values of the render it belongs
     * to: when the route's tab and the stored tab differ, the current tab is
     * stored under this component's key. No other key changes and nothing
     * is navigated.
     */
    method SyncEffect(activityTab: Option<string>, lastSelectedTab: Option<string>)
      modifies this`storage
      ensures storage == ApplyWrite(old(storage), Key(), SyncWrite(activityTab, lastSelectedTab))
      ensures forall k :: k != Key() ==> Lookup(storage, k) == Lookup(old(storage), k)
      ensures history == old(history) && routeTab == old(routeTab)
    {
      if activityTab != lastSelectedTab {
        storage := storage[Key() := CurrentTab(activityTab, lastSelectedTab)];
      }
    }

    /**
     * The redirect effect, run with the values of its render: when the route
     * has no tab and storage has one, one history-replacing navigation to
     * the stored tab's route.
     */
    method RedirectEffect(activityTab: Option<string>, lastSelectedTab: Option<string>)
      modifies this`history
      ensures history == old(history) + if RedirectTab(activityTab, lastSelectedTab).Some?
                                         then [Navigation(Route(lastSelectedTab.value), true)]
                                         else []
      ensures storage == old(storage) && routeTab == old(routeTab)
    {
      if !Truthy(activityTab) && lastSelectedTab.Some? && lastSelectedTab.value != "" {
        history := history + [Navigation(Route(lastSelectedTab.value), true)];
      }
    }

    /** One render followed by its two effects, in the order they are declared. */
    method Render()
      modifies this`storage, this`history
      ensures storage == ApplyWrite(old(storage), Key(), SyncWrite(old(routeTab), old(LastSelectedTab())))
      ensures history == old(history) + if RedirectTab(old(routeTab), old(LastSelectedTab())).Some?
                                         then [Navigation(Route(old(LastSelectedTab()).value), true)]
                                         else []
      ensures Current() == old(Current())
      ensures routeTab == old(routeTab)
    {
      var activityTab, lastSelectedTab := routeTab, LastSelectedTab();
      SyncEffect(activityTab, lastSelectedTab);
      RedirectEffect(activityTab, lastSelectedTab);
      if SyncWrite(activityTab, lastSelectedTab).Some? {
        SyncWriteKeepsCurrentTab(activityTab, lastSelectedTab);
      }
    }

    /** The router shows a new location, whose tab parameter is `tab`. */
    method FollowRoute(tab: Option<string>)
      modifies this`routeTab
      ensures routeTab == tab
      ensures storage == old(storage) && history == old(history)
    {
      routeTab := tab;
    }
  }

  // ---------------------------------------------------------------------------
  // Scenarios

  /** The key and the route of the scenarios below, spelled out. */
  lemma ScenarioLiterals()
    ensures StorageKey(Some("c1")) == "c1_activity-secondary-tab"
    ensures IsSegment("pipelineruns")
    ensures ActivityTabRoute("w1", "app1", "c1", "pipelineruns")
            == "/workspaces/w1/applications/app1/components/c1/activity/pipelineruns"
  {
    var k1 := "c1" + "_";
    assert k1 == "c1_";
    assert k1 + ActivitySecondaryTabKey == "c1_activity-secondary-tab";
    var p1 := "/workspaces/" + "w1";
    assert p1 == "/workspaces/w1";
    var p2 := p1 + "/applications/";
    assert p2 == "/workspaces/w1/applications/";
    var p3 := p2 + "app1";
    assert p3 == "/workspaces/w1/applications/app1";
    var p4 := p3 + "/components/";
    assert p4 == "/workspaces/w1/applications/app1/components/";
    var p5 := p4 + "c1";
    assert p5 == "/workspaces/w1/applications/app1/components/c1";
    var p6 := p5 + "/activity/";
    assert p6 == "/workspaces/w1/applications/app1/components/c1/activity/";
    assert p6 + "pipelineruns" == "/workspaces/w1/applications/app1/components/c1/activity/pipelineruns";
  }

  /**
   * Route `/workspaces/w1/applications/app1/components/c1/activity` and
   * "pipelineruns" stored for c1: one history-replacing redirect to the
   * pipelineruns route, and once the router follows it, nothing more.
   */
  method RedirectScenario() returns (history: seq<Navigation>, stored: Option<string>)
    ensures history == [Navigation("/workspaces/w1/applications/app1/components/c1/activity/pipelineruns", true)]
    ensures stored == Some("pipelineruns")
  {
    var view := new ActivityTabView("w1", "app1", "c1", Some("c1"), None,
                                    map["c1_activity-secondary-tab" := "pipelineruns"]);
    var route := view.Route("pipelineruns");
    ScenarioLiterals();
    assert view.LastSelectedTab() == Some("pipelineruns");
    RedirectReachesFixedPoint("w1", "app1", "c1", None, "pipelineruns");
    view.Render();
    assert view.LastSelectedTab() == Some("pipelineruns");
    assert view.history == [Navigation(route, true)];
    view.FollowRoute(TabOfActivityRoute("w1", "app1", "c1", route));
    assert view.routeTab == Some("pipelineruns");
    view.Render();
    history, stored := view.history, view.LastSelectedTab();
  }

  /**
   * Route tab "commits" and "pipelineruns" stored: storage is overwritten
   * with "commits" and nothing is navigated.
   */
  method RouteWinsScenario() returns (history: seq<Navigation>, stored: Option<string>)
    ensures history == []
    ensures stored == Some("commits")
  {
    var view := new ActivityTabView("w1", "app1", "c1", Some("c1"), Some("commits"),
                                    map["c1_activity-secondary-tab" := "pipelineruns"]);
    ScenarioLiterals();
    view.Render();
    history, stored := view.history, view.LastSelectedTab();
  }
}
