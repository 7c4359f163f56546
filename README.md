# Activity tab and application switcher of the Konflux console

A Dafny model of two pieces of logic in the Konflux web console.

**Activity tab of a component** (`ComponentActivityTab`). A component's details page has an "Activity" panel with two secondary tabs, `latest-commits` and `pipelineruns`. Three values decide which tab is shown:

- the optional `activityTab` parameter of the route;
- the optional `lastSelectedTab`, which local storage keeps under a key scoped to the component;
- the default `latest-commits`.

Three steps act on two pieces of outside state: local storage and the router history.

- `SetActiveTab` runs when the user picks a tab. It pushes a navigation to that tab's route.
- The sync effect writes the current tab to storage when the route's tab and the stored tab differ.
- The redirect effect makes a history-replacing navigation to the stored tab's route when the route names no tab.

The model also covers the storage-key template, the route builder, and the filter that hides test pipeline runs made against a snapshot.

The pure parts are functions. The storage key and the route each have an inverse or an injectivity lemma. The two effects' decisions are the functions `SyncWrite` and `RedirectTab`. The steps themselves are methods of the class `ActivityTabView`, whose fields are the route's tab, the storage map and the history sequence. Two lemmas and two scenario methods prove the fixed-point behaviour:

- when route and storage agree, a pass changes nothing;
- after a redirect, once the router shows the new route, the next pass is a no-op.

**Application switcher** (`ApplicationSwitcher`). This part is pure: projecting applications into menu items, finding the selected item, choosing where `onSelect` navigates (it navigates only when the selection changes), the render gate of more than one item, and the enable condition of the "Create application" button.

JavaScript truthiness is modelled explicitly. In `a || b` and `!x`, both `undefined` (None) and the empty string are falsy. So a route tab or stored tab of `""` falls through to the next candidate.

## Model

| member | source | states |
|---|---|---|
| `ComponentActivityTab.JsOr` | src/components/Components/ComponentDetails/tabs/ComponentActivityTab.tsx:25 | JavaScript's `or` on two optional strings gives one of its operands, and it is truthy iff one of them is; a truthy left operand is the result, and otherwise the right operand is |
| `ComponentActivityTab.StorageKey` | src/components/Components/ComponentDetails/tabs/ComponentActivityTab.tsx:22-24 | the key is the bare `activity-secondary-tab` iff there is no component; otherwise it is exactly the component name, `_` and `activity-secondary-tab` (that prefix, that suffix, and nothing in between) |
| `ComponentActivityTab.StorageKeyInjective` | src/components/Components/ComponentDetails/tabs/ComponentActivityTab.tsx:22-24 | distinct component names, and "no component", never share a storage key |
| `ComponentActivityTab.LookupAfterWrite` | src/components/Components/ComponentDetails/tabs/ComponentActivityTab.tsx:22 | after a write, `lastSelectedTab` under that key reads back the written value, and every other key reads as before |
| `ComponentActivityTab.StorageIsolation` | src/components/Components/ComponentDetails/tabs/ComponentActivityTab.tsx:23 | writing one component's tab leaves what any other component reads back unchanged |
| `ComponentActivityTab.CurrentTab` | src/components/Components/ComponentDetails/tabs/ComponentActivityTab.tsx:25 | the route tab if it is non-empty, else the stored tab if it is non-empty, else `latest-commits`; always one of these three, and never empty |
| `ComponentActivityTab.TabOfActivityRoute` | src/components/Components/ComponentDetails/tabs/ComponentActivityTab.tsx:29 | a path gives back a tab iff it starts with the component's activity prefix and the rest is one non-empty path segment (no `/`, `?` or `#`); prefix + tab is then the path. The bare prefix gives no tab |
| `ComponentActivityTab.ActivityTabRoute` | src/components/Components/ComponentDetails/tabs/ComponentActivityTab.tsx:27-31 | the route is the component's activity prefix followed by exactly the tab, for every tab, so it ends in `/activity/` + tab; a non-empty one-segment tab is read back as the tab it was built from |
| `ComponentActivityTab.ActivityTabRouteInjective` | src/components/Components/ComponentDetails/tabs/ComponentActivityTab.tsx:27-31 | different tabs of one component give different routes |
| `ComponentActivityTab.SyncWrite` | src/components/Components/ComponentDetails/tabs/ComponentActivityTab.tsx:43-47 | the sync effect writes iff the route tab and the stored tab differ. It writes the route tab when that is non-empty, else the stored tab when that is non-empty, else `latest-commits` |
| `ComponentActivityTab.SyncWriteKeepsCurrentTab` | src/components/Components/ComponentDetails/tabs/ComponentActivityTab.tsx:43-47 | after the sync effect's write, the resolved tab is the same as before it |
| `ComponentActivityTab.RedirectTab` | src/components/Components/ComponentDetails/tabs/ComponentActivityTab.tsx:49-53 | the redirect targets a tab iff the route tab is absent or empty and the stored tab is non-empty. The target is the stored tab, which is also the tab already shown |
| `ComponentActivityTab.AgreementIsFixedPoint` | src/components/Components/ComponentDetails/tabs/ComponentActivityTab.tsx:43-53 | when the route tab equals the stored tab, neither effect writes or navigates |
| `ComponentActivityTab.RedirectReachesFixedPoint` | src/components/Components/ComponentDetails/tabs/ComponentActivityTab.tsx:43-53 | with no route tab and a stored one-segment tab, the pass redirects to the stored tab and rewrites the same value. Once the route carries that tab, the next pass does neither |
| `ComponentActivityTab.FindParam` | src/components/Components/ComponentDetails/tabs/ComponentActivityTab.tsx:59 | `find` returns a parameter iff one has the name, and then the first such parameter |
| `ComponentActivityTab.NonTestSnapshotFilter` | src/components/Components/ComponentDetails/tabs/ComponentActivityTab.tsx:57-59 | a run is dropped iff its pipeline-type label is `test` and it has a `SNAPSHOT` parameter; runs without labels or without parameters are kept |
| `ComponentActivityTab.ActivityTabView.constructor` | src/components/Components/ComponentDetails/tabs/ComponentActivityTab.tsx:17-24 | a view for given route parameters, component, route tab and storage, with an empty history |
| `ComponentActivityTab.ActivityTabView.SetActiveTab` | src/components/Components/ComponentDetails/tabs/ComponentActivityTab.tsx:34-41 | appends exactly one non-replacing navigation to the new tab's route iff it differs from the current tab. Storage and the route tab are untouched |
| `ComponentActivityTab.ActivityTabView.SyncEffect` | src/components/Components/ComponentDetails/tabs/ComponentActivityTab.tsx:43-47 | storage gets the `SyncWrite` value under this component's key. Every other key reads the same, and history and route are unchanged |
| `ComponentActivityTab.ActivityTabView.RedirectEffect` | src/components/Components/ComponentDetails/tabs/ComponentActivityTab.tsx:49-53 | appends exactly one `replace: true` navigation to the stored tab's route iff `RedirectTab` chooses it, else nothing. Storage is untouched |
| `ComponentActivityTab.ActivityTabView.Render` | src/components/Components/ComponentDetails/tabs/ComponentActivityTab.tsx:43-53 | both effects in declaration order, on the render's values; the shown tab is the same afterwards |
| `ComponentActivityTab.ActivityTabView.FollowRoute` | src/components/Components/ComponentDetails/tabs/ComponentActivityTab.tsx:17-18 | the route parameter changes to the new location's, nothing else does |
| `ComponentActivityTab.RedirectScenario` | src/components/Components/ComponentDetails/tabs/ComponentActivityTab.tsx:49-53 | no route tab and `pipelineruns` stored for `c1`: after two passes the history holds just the replacing redirect to `/workspaces/w1/applications/app1/components/c1/activity/pipelineruns` |
| `ComponentActivityTab.RouteWinsScenario` | src/components/Components/ComponentDetails/tabs/ComponentActivityTab.tsx:43-47 | route tab `commits` and `pipelineruns` stored: storage then holds `commits` and nothing is navigated |
| `ApplicationSwitcher.MenuItemsOf` | src/components/Applications/switcher/ApplicationSwitcher.tsx:23 | one item per application, in order, with key = `metadata.name` and name = `spec.displayName` |
| `ApplicationSwitcher.MenuItems` | src/components/Applications/switcher/ApplicationSwitcher.tsx:21-25 | the same projection when applications are present, and no items when they are absent |
| `ApplicationSwitcher.SelectedItem` | src/components/Applications/switcher/ApplicationSwitcher.tsx:27 | the first item whose key is the selected application, or none iff no key matches |
| `ApplicationSwitcher.ApplicationPath` | src/components/Applications/switcher/ApplicationSwitcher.tsx:30 | an application's page is the applications-list path, then `/` and the key; stripping that prefix gives the key back |
| `ApplicationSwitcher.ApplicationPathInjective` | src/components/Applications/switcher/ApplicationSwitcher.tsx:30 | different application keys give different paths |
| `ApplicationSwitcher.OnSelect` | src/components/Applications/switcher/ApplicationSwitcher.tsx:29-31 | navigates iff the picked key differs from the selected item's key. The target is the picked application's page under `/workspaces/{workspace}/applications/` |
| `ApplicationSwitcher.OnSelectLeavesSelected` | src/components/Applications/switcher/ApplicationSwitcher.tsx:29-31 | a navigation from the switcher never targets the selected application's own page |
| `ApplicationSwitcher.ShowSwitcherForApplications` | src/components/Applications/switcher/ApplicationSwitcher.tsx:21-33 | the switcher is rendered iff applications are present and there are more than one of them |

The modules `Optional` (the `Option` type) and `Text` (prefix and suffix helpers with their lemmas) are shared helpers. `ApplicationSwitcher.ApplicationsListPath` models the "View applications list" link at src/components/Applications/switcher/ApplicationSwitcher.tsx:60. Two plain definitions carry no contract of their own: `ApplicationSwitcher.ShowSwitcher` is the render gate `menuItems.length > 1` at line 33, and `ApplicationSwitcher.CreateApplicationDisabled` is the button's `!(canCreateApplication && canCreateComponent)` at line 47. `ComponentActivityTab.Lookup` reads a key of the storage map.

## Left out

- JSX rendering and layout: tabs, buttons, levels, test ids, the commits list, the pipeline-runs tab and the context switcher's internals. They are presentation only.
- Data-fetching and context hooks (`useParams`, `useWorkspaceInfo`, `useComponent`, `useApplications`). Their results are inputs: the view's route parameters, the component name as an `Option`, and the applications list as an `Option`.
- Line 21 of `ComponentActivityTab.tsx` reads `component.spec.application` without a check, so a missing component fails before the key is built. The model does not represent that failure. It builds the key for the "no component" case exactly as line 23 writes it.
- Route parameters that are `undefined` would print as the text "undefined" in a template string. Route builders take plain strings.
- `useLocalStorage` is not part of this model. Storage is a `map<string, string>`; a missing key reads as None. Serialisation, read and write failures, and any re-render triggered by a write are not modelled.
- React effect scheduling, dependency arrays, memoisation and re-render order. Each effect is an explicit step that receives the values of its render. `Render` runs the two effects in declaration order. `FollowRoute` stands in for the router re-rendering with a new location.
- The router library and analytics. `navigate` appends a `(path, replace)` entry to the history sequence.
- RBAC access review: the two permissions are booleans.
- The value of the pipeline-type label key. It is defined in src/consts/pipelinerun, which is not part of this model. `PipelineTypeLabel` uses the repository's label name `pipelines.appstudio.openshift.io/type`.
- The "Create application" link target (`/workspaces/{workspace}/import`). It is part of the JSX.
- The code does not check that the resolved tab is one of `latest-commits` and `pipelineruns`, and neither does the model: any non-empty route or stored value is shown. The code also does not swallow storage failures, and `setActiveTab` does not write storage. The model follows the code on all three points.
- `SyncWrite` and `AgreementIsFixedPoint`: a missing storage key reads as None, the same value as a missing route tab. So with no route tab and nothing stored, the guard at line 44 of `ComponentActivityTab.tsx` is false and the first visit writes nothing. The source of `useLocalStorage` is not part of this model. If the hook returned `null` for a missing key, `undefined !== null` would hold: that visit would store `latest-commits`, and the next render would redirect to its route.
- `TabOfActivityRoute` and `RedirectReachesFixedPoint`: the router's reading of the optional tab segment is modelled only for tabs that are one non-empty path segment (no `/`, `?` or `#`). The bare prefix, with the optional segment left out, reads as no tab. URL encoding and decoding are not modelled. For other stored values the model does not say what the router would give back, so the "next pass is a no-op" claim is limited to one-segment tabs.
- `OnSelect`: requires a selected item. The source reads `selectedItem.key` unguarded, so with no matching application a pick would throw. The model does not represent that failure.
- `ActivityTabView.SetActiveTab`: compares against the current tab of the view's state at the moment of the call, not against a value captured at render. `Render` proves that the effects never change the current tab, so the two agree unless the route changes in between.
