/**
 * The cases-list page script (static/js/CRM/crm_list.js): the company
 * search box, the show/hide toggle of the column-filter row, and
 * `aplicarFiltrosJS`, which rebuilds the page's query parameters from the
 * active tab's search box and column filters before reloading the page.
 *
 * The query is a `URLSearchParams`: an ordered list of key/value pairs
 * where `get` answers the first value of a key, `delete` removes every pair
 * with the key, and `set` replaces the first pair's value, drops the other
 * pairs with that key, or appends the pair when the key is absent.
 */
module CrmList {
  import opened Wrappers
  import opened Text
  import opened Dom

  // ---------------------------------------------------------------- DOM

  /** A company entry in the company list, with its rendered text. */
  class Item {
    const text: string
    var display: string

    constructor(text: string, display: string)
      ensures this.text == text && this.display == display
    {
      this.text := text;
      this.display := display;
    }
  }

  /** The company search keeps an entry visible iff its text contains the search, ignoring case. */
  function ItemDisplay(text: string, filtro: string): (d: string)
    ensures d == "" <==> ContainsIgnoreCase(text, filtro)
    ensures d == "none" <==> !ContainsIgnoreCase(text, filtro)
  {
    if ContainsIgnoreCase(text, filtro) then "" else "none"
  }

  /** The `keyup` handler of the company search box, over every `.item-empresa`. */
  method FiltrarEmpresas(items: seq<Item>, filtro: string)
    modifies items
    ensures forall j :: 0 <= j < |items| ==> items[j].display == ItemDisplay(items[j].text, filtro)
  {
    var i := 0;
    while i < |items|
      invariant 0 <= i <= |items|
      invariant forall j :: 0 <= j < i ==> items[j].display == ItemDisplay(items[j].text, filtro)
    {
      items[i].display := ItemDisplay(items[i].text, filtro);
      i := i + 1;
    }
  }

  /** The empty search shows every entry. */
  lemma EmptySearchShowsAll(text: string)
    ensures ItemDisplay(text, "") == ""
  {
    assert Lower("") == "";
    assert StartsWith(Lower(text)[0..], "");
  }

  /** The parts of the active tab pane the filter toggle looks up; each may be missing. */
  datatype FilterRow = FilterRow(fila: Element?, btnCheck: Element?, btnFiltro: Element?)

  /** The filter row counts as hidden when its display is `none` or unset. */
  predicate Hidden(display: string)
  {
    display == "none" || display == ""
  }

  /**
   * `toggleFiltros()`, with `pane` None when no tab pane is active: a hidden
   * filter row is shown as `table-row` together with the apply button and
   * the filter button is hidden; a shown row is hidden and the buttons swap
   * back.  Without the row nothing changes.  The three lookups find distinct
   * elements (a row and two buttons with different id prefixes).
   */
  method ToggleFiltros(pane: Option<FilterRow>)
    requires pane.Some? && pane.value.fila != null ==>
      pane.value.fila != pane.value.btnCheck && pane.value.fila != pane.value.btnFiltro
    requires pane.Some? && pane.value.btnCheck != null ==> pane.value.btnCheck != pane.value.btnFiltro
    modifies if pane.Some? then {pane.value.fila, pane.value.btnCheck, pane.value.btnFiltro} else {}
    ensures pane.Some? && pane.value.fila == null ==>
      && (pane.value.btnCheck != null ==> pane.value.btnCheck.display == old(pane.value.btnCheck.display))
      && (pane.value.btnFiltro != null ==> pane.value.btnFiltro.display == old(pane.value.btnFiltro.display))
    ensures pane.Some? && pane.value.fila != null ==>
      var p := pane.value;
      && (Hidden(old(p.fila.display)) ==> p.fila.display == "table-row")
      && (!Hidden(old(p.fila.display)) ==> p.fila.display == "none")
      && (p.btnCheck != null ==> p.btnCheck.display == if Hidden(p.fila.display) then "none" else "inline-block")
      && (p.btnFiltro != null ==> p.btnFiltro.display == if Hidden(p.fila.display) then "inline-block" else "none")
  {
    if pane.None? {
      return;
    }
    var p := pane.value;
    if p.fila != null {
      if p.fila.display == "none" || p.fila.display == "" {
        p.fila.display := "table-row";
        if p.btnCheck != null { p.btnCheck.display := "inline-block"; }
        if p.btnFiltro != null { p.btnFiltro.display := "none"; }
      } else {
        p.fila.display := "none";
        if p.btnCheck != null { p.btnCheck.display := "none"; }
        if p.btnFiltro != null { p.btnFiltro.display := "inline-block"; }
      }
    }
  }

  /** Two toggles return the row to whether it was hidden, and the buttons follow it. */
  method ToggleTwice(p: FilterRow)
    requires p.fila != null && p.fila != p.btnCheck && p.fila != p.btnFiltro
    requires p.btnCheck != null ==> p.btnCheck != p.btnFiltro
    modifies p.fila, p.btnCheck, p.btnFiltro
    ensures Hidden(p.fila.display) == Hidden(old(p.fila.display))
    ensures p.btnCheck != null ==> (p.btnCheck.display == "inline-block" <==> !Hidden(p.fila.display))
    ensures p.btnFiltro != null ==> (p.btnFiltro.display == "inline-block" <==> Hidden(p.fila.display))
  {
    ToggleFiltros(Some(p));
    ToggleFiltros(Some(p));
  }

  // ---------------------------------------------------------------- tab

  /** The tab name sent back to the server, from the active pane's id. */
  function TabName(paneId: string): (name: string)
    ensures name == "cedidos" <==> Contains(paneId, "cedido")
    ensures name == "ha-pagado" <==> !Contains(paneId, "cedido") && Contains(paneId, "pagado")
    ensures name == "impagos" <==> !Contains(paneId, "cedido") && !Contains(paneId, "pagado")
  {
    if Contains(paneId, "cedido") then "cedidos"
    else if Contains(paneId, "pagado") then "ha-pagado"
    else "impagos"
  }

  // ---------------------------------------------------------------- URLSearchParams

  datatype Param = Param(key: string, value: string)

  type Params = seq<Param>

  /** The pairs with key `k`, in order (`getAll`). */
  function Only(ps: Params, k: string): (r: Params)
    ensures |r| <= |ps|
    ensures forall i :: 0 <= i < |r| ==> r[i].key == k
  {
    if ps == [] then [] else (if ps[0].key == k then [ps[0]] else []) + Only(ps[1..], k)
  }

  /** `params.get(k)`: the first value of `k`. */
  function Get(ps: Params, k: string): Option<string>
  {
    var o := Only(ps, k);
    if o == [] then None else Some(o[0].value)
  }

  lemma OnlyCons(x: Param, rest: Params, k: string)
    ensures Only([x] + rest, k) == (if x.key == k then [x] else []) + Only(rest, k)
  {
    assert ([x] + rest)[1..] == rest;
  }

  lemma {:induction false} OnlyAppend(a: Params, b: Params, k: string)
    ensures Only(a + b, k) == Only(a, k) + Only(b, k)
  {
    if a == [] {
      assert a + b == b;
    } else {
      assert (a + b)[1..] == a[1..] + b;
      assert (a + b)[0] == a[0];
      OnlyAppend(a[1..], b, k);
    }
  }

  /** `params.delete(k)`: every pair with key `k` goes, the others stay in order. */
  function Delete(ps: Params, k: string): (r: Params)
    ensures Only(r, k) == []
    ensures forall k' :: k' != k ==> Only(r, k') == Only(ps, k')
  {
    if ps == [] then []
    else if ps[0].key == k then Delete(ps[1..], k)
    else
      var r := [ps[0]] + Delete(ps[1..], k);
      OnlyCons(ps[0], Delete(ps[1..], k), k);
      forall k' | k' != k
        ensures Only(r, k') == Only(ps, k')
      {
        OnlyCons(ps[0], Delete(ps[1..], k), k');
      }
      r
  }

  /** The first pair with key `k` takes value `v`, and the later ones go. */
  function ReplaceFirst(ps: Params, k: string, v: string): (r: Params)
    requires Only(ps, k) != []
    ensures Only(r, k) == [Param(k, v)]
    ensures forall k' :: k' != k ==> Only(r, k') == Only(ps, k')
  {
    if ps[0].key == k then
      var r := [Param(k, v)] + Delete(ps[1..], k);
      OnlyCons(Param(k, v), Delete(ps[1..], k), k);
      forall k' | k' != k
        ensures Only(r, k') == Only(ps, k')
      {
        OnlyCons(Param(k, v), Delete(ps[1..], k), k');
      }
      r
    else
      var r := [ps[0]] + ReplaceFirst(ps[1..], k, v);
      OnlyCons(ps[0], ReplaceFirst(ps[1..], k, v), k);
      forall k' | k' != k
        ensures Only(r, k') == Only(ps, k')
      {
        OnlyCons(ps[0], ReplaceFirst(ps[1..], k, v), k');
      }
      r
  }

  /** `params.set(k, v)`: afterwards `k` has the single value `v`; other keys are untouched. */
  function Set(ps: Params, k: string, v: string): (r: Params)
    ensures Only(r, k) == [Param(k, v)]
    ensures forall k' :: k' != k ==> Only(r, k') == Only(ps, k')
    ensures Only(ps, k) == [] ==> r == ps + [Param(k, v)]
  {
    if Only(ps, k) == [] then
      var r := ps + [Param(k, v)];
      OnlyAppend(ps, [Param(k, v)], k);
      forall k' | k' != k
        ensures Only(r, k') == Only(ps, k')
      {
        OnlyAppend(ps, [Param(k, v)], k');
        assert Only([Param(k, v)], k') == [];
      }
      r
    else ReplaceFirst(ps, k, v)
  }

  // ---------------------------------------------------------------- the rebuild

  /** The keys `aplicarFiltrosJS` clears: the search, the tab, the page and every column filter. */
  predicate IsManaged(key: string)
  {
    key == "q" || key == "tab" || key == "page" || StartsWith(key, "f_")
  }

  /** `keysToDelete`: the managed keys in the order `forEach` meets them (repeats included). */
  function ManagedKeys(ps: Params): (keys: seq<string>)
    ensures forall x :: x in keys ==> IsManaged(x)
    ensures forall j :: 0 <= j < |ps| && IsManaged(ps[j].key) ==> ps[j].key in keys
  {
    if ps == [] then []
    else
      var last := ps[|ps| - 1];
      var front := ManagedKeys(ps[..|ps| - 1]);
      assert forall j :: 0 <= j < |ps| - 1 ==> ps[j] == ps[..|ps| - 1][j];
      front + (if IsManaged(last.key) then [last.key] else [])
  }

  /** The pairs whose key is not among `keys`. */
  function Without(ps: Params, keys: seq<string>): (r: Params)
    ensures forall k :: Only(r, k) == if k in keys then [] else Only(ps, k)
  {
    if ps == [] then []
    else
      var rest := Without(ps[1..], keys);
      var r := if ps[0].key in keys then rest else [ps[0]] + rest;
      forall k
        ensures Only(r, k) == if k in keys then [] else Only(ps, k)
      {
        if ps[0].key !in keys {
          OnlyCons(ps[0], rest, k);
        }
      }
      r
  }

  /** The pairs whose key is not managed: the query once the old search, tab, page and filters are gone. */
  function Unmanaged(ps: Params): (r: Params)
    ensures forall k :: Only(r, k) == if IsManaged(k) then [] else Only(ps, k)
  {
    if ps == [] then []
    else
      var rest := Unmanaged(ps[1..]);
      var r := if IsManaged(ps[0].key) then rest else [ps[0]] + rest;
      forall k
        ensures Only(r, k) == if IsManaged(k) then [] else Only(ps, k)
      {
        if !IsManaged(ps[0].key) {
          OnlyCons(ps[0], rest, k);
        }
      }
      r
  }

  /** Deleting one more key is filtering by one more key. */
  lemma {:induction false} DeleteWithout(ps: Params, keys: seq<string>, k: string)
    ensures Delete(Without(ps, keys), k) == Without(ps, keys + [k])
  {
    if ps != [] {
      DeleteWithout(ps[1..], keys, k);
      var x, rest := ps[0], Without(ps[1..], keys);
      assert x.key in keys + [k] <==> x.key in keys || x.key == k;
      if x.key in keys {
        assert Without(ps, keys) == rest;
      } else {
        assert Without(ps, keys) == [x] + rest;
        assert ([x] + rest)[0] == x && ([x] + rest)[1..] == rest;
      }
    }
  }

  /** One turn of the deletion loop: deleting `keys[j]` extends the removed prefix by one key. */
  lemma DeleteStep(ps: Params, keys: seq<string>, j: int)
    requires 0 <= j < |keys|
    ensures Delete(Without(ps, keys[..j]), keys[j]) == Without(ps, keys[..j + 1])
  {
    DeleteWithout(ps, keys[..j], keys[j]);
    assert keys[..j + 1] == keys[..j] + [keys[j]];
  }

  /** Removing every collected key is removing exactly the managed pairs. */
  lemma {:induction false} WithoutManaged(ps: Params, keys: seq<string>)
    requires forall x :: x in keys ==> IsManaged(x)
    requires forall j :: 0 <= j < |ps| && IsManaged(ps[j].key) ==> ps[j].key in keys
    ensures Without(ps, keys) == Unmanaged(ps)
  {
    if ps != [] {
      assert forall j :: 0 <= j < |ps| - 1 ==> ps[1..][j] == ps[j + 1];
      WithoutManaged(ps[1..], keys);
      assert IsManaged(ps[0].key) ==> ps[0].key in keys;
    }
  }

  /** A column filter: a checkbox or a text-like input, by its `name`. */
  datatype FilterInput = Checkbox(name: string, checked: bool) | TextInput(name: string, value: string)

  /** The value a filter contributes: `'true'` for a ticked checkbox, the trimmed text of a filled-in input. */
  function FilterValue(f: FilterInput): (v: Option<string>)
    ensures f.Checkbox? ==> (v.Some? <==> f.checked) && (v.Some? ==> v.value == "true")
    ensures f.TextInput? ==> (v.Some? <==> JsTrim(f.value) != "") && (v.Some? ==> v.value == JsTrim(f.value))
  {
    match f
    case Checkbox(_, c) => if c then Some("true") else None
    case TextInput(_, v) => if JsTrim(v) != "" then Some(JsTrim(v)) else None
  }

  /** The value the last contributing filter named `k` sets, if any. */
  function LastSet(fs: seq<FilterInput>, k: string): Option<string>
  {
    if fs == [] then None
    else
      var f := fs[|fs| - 1];
      if f.name == k && FilterValue(f).Some? then FilterValue(f) else LastSet(fs[..|fs| - 1], k)
  }

  /** One step of the filters' `forEach`. */
  function ApplyFilter(ps: Params, f: FilterInput): Params
  {
    if FilterValue(f).Some? then Set(ps, f.name, FilterValue(f).value) else ps
  }

  /** All the filters applied in order: each key ends with the value of its last contributing filter. */
  function ApplyFilters(ps: Params, fs: seq<FilterInput>): (r: Params)
    ensures forall k :: Only(r, k) == match LastSet(fs, k) case Some(v) => [Param(k, v)] case None => Only(ps, k)
  {
    if fs == [] then ps else ApplyFilter(ApplyFilters(ps, fs[..|fs| - 1]), fs[|fs| - 1])
  }

  /** A filter whose name no other filter shares decides its key alone. */
  lemma {:induction false} LastSetUnique(fs: seq<FilterInput>, j: int)
    requires 0 <= j < |fs|
    requires forall i :: 0 <= i < |fs| && i != j ==> fs[i].name != fs[j].name
    ensures LastSet(fs, fs[j].name) == FilterValue(fs[j])
  {
    var n := |fs|;
    if j < n - 1 {
      var front := fs[..n - 1];
      assert forall i :: 0 <= i < |front| && i != j ==> front[i].name != front[j].name;
      LastSetUnique(front, j);
    } else {
      LastSetNone(fs[..n - 1], fs[j].name);
    }
  }

  /** With no filter of that name, nothing is set. */
  lemma {:induction false} LastSetNone(fs: seq<FilterInput>, k: string)
    requires forall i :: 0 <= i < |fs| ==> fs[i].name != k
    ensures LastSet(fs, k) == None
  {
    if fs != [] {
      LastSetNone(fs[..|fs| - 1], k);
    }
  }

  /** The active tab pane: its id, its search box (if it has one) and its column filters. */
  datatype Pane = Pane(id: string, search: Option<string>, filters: seq<FilterInput>)

  /** The non-blank trimmed search text, if any. */
  function SearchText(search: Option<string>): Option<string>
  {
    if search.Some? && JsTrim(search.value) != "" then Some(JsTrim(search.value)) else None
  }

  /** The query `aplicarFiltrosJS` navigates to from the current query `ps`. */
  function Rebuild(ps: Params, pane: Pane): Params
  {
    var cleared := Unmanaged(ps);
    var searched := if SearchText(pane.search).Some? then Set(cleared, "q", SearchText(pane.search).value) else cleared;
    Set(ApplyFilters(searched, pane.filters), "tab", TabName(pane.id))
  }

  /** The `forEach` that collects `keysToDelete`. */
  method CollectManagedKeys(params: Params) returns (keysToDelete: seq<string>)
    ensures keysToDelete == ManagedKeys(params)
  {
    keysToDelete := [];
    var i := 0;
    while i < |params|
      invariant 0 <= i <= |params|
      invariant keysToDelete == ManagedKeys(params[..i])
    {
      if IsManaged(params[i].key) {
        keysToDelete := keysToDelete + [params[i].key];
      }
      assert params[..i + 1][..i] == params[..i];
      i := i + 1;
    }
    assert params[..i] == params;
  }

  /** `keysToDelete.forEach(key => params.delete(key))`. */
  method DeleteKeys(params0: Params, keys: seq<string>) returns (params: Params)
    ensures params == Without(params0, keys)
  {
    WithoutNothing(params0);
    params := params0;
    assert params == Without(params0, keys[..0]);
    var j := 0;
    while j < |keys|
      invariant 0 <= j <= |keys|
      invariant params == Without(params0, keys[..j])
    {
      DeleteStep(params0, keys, j);
      params := Delete(params, keys[j]);
      j := j + 1;
    }
    assert keys[..j] == keys;
  }

  /** The `forEach` over the column filters. */
  method ApplyFilterInputs(base: Params, filtros: seq<FilterInput>) returns (params: Params)
    ensures params == ApplyFilters(base, filtros)
  {
    params := base;
    var k := 0;
    while k < |filtros|
      invariant 0 <= k <= |filtros|
      invariant params == ApplyFilters(base, filtros[..k])
    {
      assert filtros[..k + 1][..k] == filtros[..k];
      match filtros[k] {
        case Checkbox(name, checked) =>
          if checked {
            params := Set(params, name, "true");
          }
        case TextInput(name, value) =>
          if JsTrim(value) != "" {
            params := Set(params, name, JsTrim(value));
          }
      }
      k := k + 1;
    }
    assert filtros[..k] == filtros;
  }

  /**
   * `aplicarFiltrosJS()`, with `pane` None when no tab pane is active (then
   * nothing happens); otherwise the answer is the new query string the page
   * navigates to.
   */
  method AplicarFiltrosJS(params0: Params, pane: Option<Pane>) returns (navigateTo: Option<Params>)
    ensures pane.None? ==> navigateTo.None?
    ensures pane.Some? ==> navigateTo == Some(Rebuild(params0, pane.value))
  {
    if pane.None? {
      return None;
    }
    var active := pane.value;
    var tabName := "impagos";
    if Contains(active.id, "cedido") {
      tabName := "cedidos";
    } else if Contains(active.id, "pagado") {
      tabName := "ha-pagado";
    }

    var keysToDelete := CollectManagedKeys(params0);
    var params := DeleteKeys(params0, keysToDelete);
    WithoutManaged(params0, keysToDelete);

    if active.search.Some? && JsTrim(active.search.value) != "" {
      params := Set(params, "q", JsTrim(active.search.value));
    }
    params := ApplyFilterInputs(params, active.filters);
    params := Set(params, "tab", tabName);
    navigateTo := Some(params);
  }

  lemma {:induction false} WithoutNothing(ps: Params)
    ensures Without(ps, []) == ps
  {
    if ps != [] {
      WithoutNothing(ps[1..]);
    }
  }

  // ---------------------------------------------------------------- what the rebuild promises

  /** The rebuilt query always names the current tab, once. */
  lemma RebuildTab(ps: Params, pane: Pane)
    ensures Only(Rebuild(ps, pane), "tab") == [Param("tab", TabName(pane.id))]
  {
  }

  /** A parameter that is not managed and that no filter sets is carried over as it was. */
  lemma RebuildKeeps(ps: Params, pane: Pane, k: string)
    requires !IsManaged(k) && LastSet(pane.filters, k) == None
    ensures Only(Rebuild(ps, pane), k) == Only(ps, k)
  {
  }

  /**
   * A managed parameter that no filter sets is gone: old filters, the page
   * number and a stale search do not survive (the search is set again
   * only from a non-blank search box).
   */
  lemma RebuildClears(ps: Params, pane: Pane, k: string)
    requires IsManaged(k) && k != "tab" && k != "q" && LastSet(pane.filters, k) == None
    ensures Only(Rebuild(ps, pane), k) == []
  {
  }

  /** Without a filter named `q`, the search is the trimmed search box, present only when non-blank. */
  lemma RebuildSearch(ps: Params, pane: Pane)
    requires LastSet(pane.filters, "q") == None
    ensures Get(Rebuild(ps, pane), "q") == SearchText(pane.search)
  {
  }

  /** A filter whose name is its own sets exactly its contribution, and nothing when it contributes nothing. */
  lemma RebuildFilter(ps: Params, pane: Pane, j: int)
    requires 0 <= j < |pane.filters|
    requires forall i :: 0 <= i < |pane.filters| && i != j ==> pane.filters[i].name != pane.filters[j].name
    requires StartsWith(pane.filters[j].name, "f_")
    ensures Get(Rebuild(ps, pane), pane.filters[j].name) == FilterValue(pane.filters[j])
  {
    var k := pane.filters[j].name;
    LastSetUnique(pane.filters, j);
    assert k != "tab" && k != "q" by {
      assert k[0] == "f_"[0] == 'f';
      assert "tab"[0] == 't' && "q"[0] == 'q';
    }
  }
}
