/**
 * The company pages that hold logic (empresas/views.py): the company list,
 * split into active and inactive companies and filtered by a search box,
 * and the soft deactivation and reactivation of a company.  `icontains` is
 * modelled as ASCII case-insensitive containment.
 */
module CompanyViews {
  import opened Wrappers
  import opened Text
  import opened Companies
  import CrmViews

  /** The search criterion: the text occurs, ignoring case, in the name, the legal name or the tax id. */
  predicate Matches(e: Empresa, busqueda: string)
    reads e
  {
    ContainsIgnoreCase(e.nombre, busqueda) || ContainsIgnoreCase(e.razonSocial, busqueda)
    || ContainsIgnoreCase(e.cifNif, busqueda)
  }

  /** `if busqueda:`: a missing or empty search applies no filter. */
  predicate Kept(e: Empresa, busqueda: Option<string>)
    reads e
  {
    busqueda.None? || busqueda.value == "" || Matches(e, busqueda.value)
  }

  /** The companies with the given status that the search keeps, in table order. */
  function Listed(empresas: seq<Empresa>, active: bool, busqueda: Option<string>): (r: seq<Empresa>)
    reads empresas
    ensures |r| <= |empresas|
    ensures forall i :: 0 <= i < |r| ==> r[i] in empresas && r[i].isActive == active && Kept(r[i], busqueda)
    ensures forall i :: 0 <= i < |empresas| && empresas[i].isActive == active && Kept(empresas[i], busqueda)
              ==> empresas[i] in r
  {
    if empresas == [] then []
    else
      var rest := Listed(empresas[1..], active, busqueda);
      assert forall i :: 1 <= i < |empresas| ==> empresas[i] == empresas[1..][i - 1];
      if empresas[0].isActive == active && Kept(empresas[0], busqueda) then [empresas[0]] + rest else rest
  }

  /** What `lista_empresas` puts in the template context. */
  datatype Listing = Listing(activas: seq<Empresa>, inactivas: seq<Empresa>, busqueda: string)

  /** `lista_empresas(request)`, with `busqueda` the `busqueda` query parameter if present. */
  function ListaEmpresas(empresas: seq<Empresa>, busqueda: Option<string>): (r: Listing)
    reads empresas
    ensures r.busqueda == if busqueda.Some? then busqueda.value else ""
  {
    Listing(Listed(empresas, true, busqueda), Listed(empresas, false, busqueda),
            if busqueda.Some? then busqueda.value else "")
  }

  /**
   * The two lists partition the companies the search keeps by status: each
   * such company is in exactly one list, and a company the search rejects
   * is in neither.  Without a search every company is listed.
   */
  lemma ListaEmpresasPartition(empresas: seq<Empresa>, busqueda: Option<string>, i: int)
    requires 0 <= i < |empresas|
    ensures var r := ListaEmpresas(empresas, busqueda);
      && (empresas[i] in r.activas <==> empresas[i].isActive && Kept(empresas[i], busqueda))
      && (empresas[i] in r.inactivas <==> !empresas[i].isActive && Kept(empresas[i], busqueda))
    ensures busqueda.None? || busqueda == Some("") ==>
      var r := ListaEmpresas(empresas, busqueda);
      empresas[i] in r.activas || empresas[i] in r.inactivas
  {
    var r := ListaEmpresas(empresas, busqueda);
    forall j | 0 <= j < |r.activas| ensures r.activas[j] != empresas[i] || empresas[i].isActive {}
    if empresas[i] in r.activas {
      var j :| 0 <= j < |r.activas| && r.activas[j] == empresas[i];
    }
    if empresas[i] in r.inactivas {
      var j :| 0 <= j < |r.inactivas| && r.inactivas[j] == empresas[i];
    }
  }

  /** The search ignores ASCII case on both sides. */
  lemma SearchIgnoresCase(e: Empresa, busqueda: string)
    ensures Matches(e, busqueda) <==> Matches(e, Lower(busqueda))
  {
    LowerIdempotent(busqueda);
  }

  lemma LowerIdempotent(s: string)
    ensures Lower(Lower(s)) == Lower(s)
  {
    assert forall i :: 0 <= i < |s| ==> LowerChar(LowerChar(s[i])) == LowerChar(s[i]);
  }

  /** The list of CRM companies is the active list of an unfiltered company listing. */
  lemma ListaCrmIsActiveList(empresas: seq<Empresa>)
    ensures CrmViews.ListaCrm(empresas) == ListaEmpresas(empresas, None).activas
  {
    if empresas != [] {
      ListaCrmIsActiveList(empresas[1..]);
    }
  }

  /** The request method; only POST changes anything. */
  datatype HttpMethod = Get | Post

  /** Every field of a company other than its status and leaving date. */
  twostate predicate DescriptiveUnchanged(e: Empresa)
    reads e
  {
    e.nombre == old(e.nombre) && e.razonSocial == old(e.razonSocial) && e.cifNif == old(e.cifNif)
    && e.fechaAlta == old(e.fechaAlta) && e.tiposImpagos == old(e.tiposImpagos)
  }

  /**
   * `desactivar_empresa(request, empresa_id)`: a POST marks the company
   * inactive with today as its leaving date; any other method changes
   * nothing; an unknown id is a 404.  No other company changes.
   */
  method DesactivarEmpresa(empresas: seq<Empresa>, empresaId: int, verb: HttpMethod, today: int)
    returns (r: CrmViews.Response<Empresa>)
    modifies empresas
    ensures r.NotFound? <==> CrmViews.FindEmpresa(empresas, empresaId).None?
    ensures r.Found? ==> r.value == CrmViews.FindEmpresa(empresas, empresaId).value
    ensures forall e :: e in empresas && (r.NotFound? || e != r.value) ==> unchanged(e)
    ensures r.Found? ==> DescriptiveUnchanged(r.value)
    ensures r.Found? && verb == Post ==> !r.value.isActive && r.value.fechaBaja == Some(today)
    ensures r.Found? && verb != Post ==> unchanged(r.value)
  {
    var found := CrmViews.FindEmpresa(empresas, empresaId);
    if found.None? {
      return CrmViews.NotFound;
    }
    var empresa := found.value;
    if verb == Post {
      empresa.isActive := false;
      empresa.fechaBaja := Some(today);
    }
    r := CrmViews.Found(empresa);
  }

  /**
   * `reactivar_empresa(request, empresa_id)`: a POST marks the company
   * active again and clears its leaving date; otherwise as above.
   */
  method ReactivarEmpresa(empresas: seq<Empresa>, empresaId: int, verb: HttpMethod)
    returns (r: CrmViews.Response<Empresa>)
    modifies empresas
    ensures r.NotFound? <==> CrmViews.FindEmpresa(empresas, empresaId).None?
    ensures r.Found? ==> r.value == CrmViews.FindEmpresa(empresas, empresaId).value
    ensures forall e :: e in empresas && (r.NotFound? || e != r.value) ==> unchanged(e)
    ensures r.Found? ==> DescriptiveUnchanged(r.value)
    ensures r.Found? && verb == Post ==> r.value.isActive && r.value.fechaBaja == None
    ensures r.Found? && verb != Post ==> unchanged(r.value)
  {
    var found := CrmViews.FindEmpresa(empresas, empresaId);
    if found.None? {
      return CrmViews.NotFound;
    }
    var empresa := found.value;
    if verb == Post {
      empresa.isActive := true;
      empresa.fechaBaja := None;
    }
    r := CrmViews.Found(empresa);
  }

  /**
   * Deactivating and then reactivating a company leaves it active with no
   * leaving date and every descriptive field as it was; the listing then
   * shows it among the active companies again.
   */
  method DeactivateThenReactivate(empresas: seq<Empresa>, empresaId: int, today: int)
    returns (r: CrmViews.Response<Empresa>)
    modifies empresas
    ensures r.NotFound? <==> CrmViews.FindEmpresa(empresas, empresaId).None?
    ensures r.Found? ==> r.value in empresas
    ensures forall e :: e in empresas && (r.NotFound? || e != r.value) ==> unchanged(e)
    ensures r.Found? ==> r.value.isActive && r.value.fechaBaja == None && DescriptiveUnchanged(r.value)
    ensures r.Found? ==> r.value in ListaEmpresas(empresas, None).activas
  {
    var first := DesactivarEmpresa(empresas, empresaId, Post, today);
    r := ReactivarEmpresa(empresas, empresaId, Post);
    if r.Found? {
      var i :| 0 <= i < |empresas| && empresas[i] == r.value;
      assert Kept(empresas[i], None);
    }
  }
}
