/**
 * The application switcher: a drop-down of the workspace's applications that
 * navigates to the one picked, shown only when there is something to switch
 * to, with a "Create application" button gated on two permissions.
 */
module ApplicationSwitcher {
  import opened Optional
  import opened Text

  /** The parts of an Application resource the switcher reads. */
  datatype Application = Application(name: string, displayName: string)  // metadata.name, spec.displayName

  /** An entry of the drop-down. */
  datatype MenuItem = MenuItem(key: string, name: string)

  /** One menu item per application, in the same order. */
  function MenuItemsOf(applications: seq<Application>): (items: seq<MenuItem>)
    ensures |items| == |applications|
    ensures forall i :: 0 <= i < |items| ==>
              items[i] == MenuItem(applications[i].name, applications[i].displayName)
  {
    if |applications| == 0 then []
    else [MenuItem(applications[0].name, applications[0].displayName)] + MenuItemsOf(applications[1..])
  }

  /**
   * `applications?.map(...) || []`: the menu items of the applications, or
   * none while there are no applications.
   */
  function MenuItems(applications: Option<seq<Application>>): (items: seq<MenuItem>)
    ensures applications.None? ==> items == []
    ensures applications.Some? ==> |items| == |applications.value|
    ensures applications.Some? ==> forall i :: 0 <= i < |items| ==>
              items[i].key == applications.value[i].name && items[i].name == applications.value[i].displayName
  {
    if applications.Some? then MenuItemsOf(applications.value) else []
  }

  /** JavaScript's `item.key === selectedApplication`, where the selection may be undefined. */
  predicate IsSelected(item: MenuItem, selectedApplication: Option<string>)
  {
    selectedApplication == Some(item.key)
  }

  /**
   * `menuItems.find(...)`: the first menu item whose key is the selected
   * application, or None when no key matches.
   */
  function SelectedItem(items: seq<MenuItem>, selectedApplication: Option<string>): (selected: Option<MenuItem>)
    ensures selected.None? <==> forall i :: 0 <= i < |items| ==> !IsSelected(items[i], selectedApplication)
    ensures selected.Some? ==> exists i :: 0 <= i < |items| && items[i] == selected.value &&
                                           IsSelected(items[i], selectedApplication) &&
                                           forall j :: 0 <= j < i ==> !IsSelected(items[j], selectedApplication)
  {
    if |items| == 0 then None
    else if IsSelected(items[0], selectedApplication) then Some(items[0])
    else
      var rest := SelectedItem(items[1..], selectedApplication);
      assert forall i :: 1 <= i < |items| ==> items[i] == items[1..][i - 1];
      rest
  }

  /** `/workspaces/{workspace}/applications`, the applications list. */
  function ApplicationsListPath(workspace: string): string
  {
    "/workspaces/" + workspace + "/applications"
  }

  /** `/workspaces/{workspace}/applications/{key}`: one application's page, below the list. */
  function ApplicationPath(workspace: string, key: string): (path: string)
    ensures path == ApplicationsListPath(workspace) + "/" + key
    ensures StripPrefix(ApplicationsListPath(workspace) + "/", path) == Some(key)
  {
    var path := "/workspaces/" + workspace + "/applications/" + key;
    assert path == ApplicationsListPath(workspace) + "/" + key;
    StripPrefixOfConcat(ApplicationsListPath(workspace) + "/", key);
    path
  }

  /** Different applications have different pages. */
  lemma ApplicationPathInjective(workspace: string, k1: string, k2: string)
    requires k1 != k2
    ensures ApplicationPath(workspace, k1) != ApplicationPath(workspace, k2)
  {
  }

  /**
   * `onSelect(item)`: the path navigated to, if any. It navigates to the
   * picked application's page exactly when that is not the selected one.
   * The source reads the selected item's key, so one must be selected.
   */
  function OnSelect(workspace: string, selectedItem: Option<MenuItem>, item: MenuItem): (target: Option<string>)
    requires selectedItem.Some?
    ensures target.Some? <==> item.key != selectedItem.value.key
    ensures target.Some? ==> HasPrefix(ApplicationsListPath(workspace) + "/", target.value)
    ensures target.Some? ==> StripPrefix(ApplicationsListPath(workspace) + "/", target.value) == Some(item.key)
  {
    if selectedItem.value.key != item.key then Some(ApplicationPath(workspace, item.key)) else None
  }

  /** A navigation from the switcher never leads to the page of the selected application. */
  lemma OnSelectLeavesSelected(workspace: string, selectedItem: Option<MenuItem>, item: MenuItem)
    requires selectedItem.Some?
    requires OnSelect(workspace, selectedItem, item).Some?
    ensures OnSelect(workspace, selectedItem, item).value != ApplicationPath(workspace, selectedItem.value.key)
  {
  }

  /** `menuItems.length > 1`: whether the switcher is rendered at all. */
  function ShowSwitcher(items: seq<MenuItem>): bool
  {
    |items| > 1
  }

  /** The switcher is rendered exactly when there are at least two applications. */
  lemma ShowSwitcherForApplications(applications: Option<seq<Application>>)
    ensures ShowSwitcher(MenuItems(applications)) <==> applications.Some? && |applications.value| > 1
  {
  }

  /** The "Create application" button is disabled unless both create permissions are granted. */
  function CreateApplicationDisabled(canCreateApplication: bool, canCreateComponent: bool): bool
  {
    !(canCreateApplication && canCreateComponent)
  }
}
