/** The tab bar of components/Tabs.tsx: the active tab is read from one query
    parameter, and selecting a tab writes that parameter back. */
module TabBar {
  import opened Wrappers
  import opened SearchParams

  // `label` is a Dafny keyword, so the visible text is `caption` here.
  datatype TabOption = TabOption(caption: string, value: string)

  /** `searchParams.get(paramKey) ?? tabs[0]?.value`; `None` is `undefined`. */
  function ActiveValue(tabs: seq<TabOption>, params: seq<Param>, paramKey: string): (r: Option<string>)
    ensures Get(params, paramKey).Some? ==> r == Get(params, paramKey)
    ensures Get(params, paramKey).None? && tabs != [] ==> r == Some(tabs[0].value)
    ensures r.None? <==> Get(params, paramKey).None? && tabs == []
  {
    match Get(params, paramKey)
    case Some(v) => Some(v)
    case None => if tabs == [] then None else Some(tabs[0].value)
  }

  /** `handleSelect(value)`: the parameters pushed to the router. The first
      tab's value is the default, so choosing it removes the parameter. */
  function Select(tabs: seq<TabOption>, params: seq<Param>, paramKey: string, value: string): (r: seq<Param>)
    ensures ActiveValue(tabs, r, paramKey) == Some(value)
    ensures Delete(r, paramKey) == Delete(params, paramKey)
    ensures forall other :: other != paramKey ==> Get(r, other) == Get(params, other)
    ensures tabs != [] && value == tabs[0].value ==> Get(r, paramKey).None?
    ensures !(tabs != [] && value == tabs[0].value) ==> Get(r, paramKey) == Some(value)
  {
    if tabs != [] && value == tabs[0].value then
      DeleteIdempotent(params, paramKey);
      Delete(params, paramKey)
    else
      Set(params, paramKey, value)
  }

  /** `isActive`: the tab's value is the active value (never so when it is `undefined`). */
  predicate IsActive(tabs: seq<TabOption>, params: seq<Param>, paramKey: string, tab: TabOption) {
    ActiveValue(tabs, params, paramKey) == Some(tab.value)
  }

  predicate DistinctValues(tabs: seq<TabOption>) {
    forall i, j :: 0 <= i < j < |tabs| ==> tabs[i].value != tabs[j].value
  }

  /** With distinct tab values at most one tab is marked selected, and when some
      tab holds the active value exactly that tab is. */
  lemma AtMostOneActive(tabs: seq<TabOption>, params: seq<Param>, paramKey: string, i: nat, j: nat)
    requires DistinctValues(tabs)
    requires i < |tabs| && j < |tabs|
    requires IsActive(tabs, params, paramKey, tabs[i]) && IsActive(tabs, params, paramKey, tabs[j])
    ensures i == j
  {
  }

  /** After selecting a tab from the bar, that tab and no other is marked. */
  lemma SelectMarksOnlyChosen(tabs: seq<TabOption>, params: seq<Param>, paramKey: string, k: nat)
    requires DistinctValues(tabs) && k < |tabs|
    ensures forall i :: 0 <= i < |tabs| ==>
      (IsActive(tabs, Select(tabs, params, paramKey, tabs[k].value), paramKey, tabs[i]) <==> i == k)
  {
    var next := Select(tabs, params, paramKey, tabs[k].value);
    forall i | 0 <= i < |tabs|
      ensures IsActive(tabs, next, paramKey, tabs[i]) <==> i == k
    {
      if i < k {
        assert tabs[i].value != tabs[k].value;
      } else if k < i {
        assert tabs[k].value != tabs[i].value;
      }
    }
  }
}
