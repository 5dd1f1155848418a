/**
 * The CRM pages (crm/views.py): the company dashboard with its four tabs
 * (cases in default, paid cases, the payment log and the trash) and the
 * list of companies with a CRM.  Query sets become filters over in-memory
 * tables that keep the table order; `order_by` becomes a sort.
 */
module CrmViews {
  import opened Wrappers
  import opened Companies
  import opened Cases

  /** `get_object_or_404`: the object, or an HTTP 404. */
  datatype Response<T> = Found(value: T) | NotFound

  /** The first company with this primary key. */
  function FindEmpresa(empresas: seq<Empresa>, id: int): (r: Option<Empresa>)
    ensures r.Some? ==> r.value in empresas && r.value.id == id
    ensures r.None? <==> forall i :: 0 <= i < |empresas| ==> empresas[i].id != id
  {
    if empresas == [] then None
    else if empresas[0].id == id then Some(empresas[0])
    else FindEmpresa(empresas[1..], id)
  }

  /** The dashboard tabs that list cases. */
  datatype Tab = Impagos | Pagados | Papelera

  /** The filter of each case tab, for the company `empresaId`. */
  predicate InTab(e: Expediente, empresaId: int, tab: Tab)
    reads e
  {
    e.empresaId == empresaId &&
    match tab
    case Impagos => e.activo && e.montoActual > 0
    case Pagados => e.activo && e.montoActual == 0
    case Papelera => !e.activo
  }

  /** The company's cases shown in `tab`, in table order. */
  function TabCases(cases: seq<Expediente>, empresaId: int, tab: Tab): (r: seq<Expediente>)
    reads cases
    ensures |r| <= |cases|
    ensures forall i :: 0 <= i < |r| ==> r[i] in cases && InTab(r[i], empresaId, tab)
    ensures forall i :: 0 <= i < |cases| && InTab(cases[i], empresaId, tab) ==> cases[i] in r
  {
    if cases == [] then []
    else
      var rest := TabCases(cases[1..], empresaId, tab);
      assert forall i :: 1 <= i < |cases| ==> cases[i] == cases[1..][i - 1];
      if InTab(cases[0], empresaId, tab) then [cases[0]] + rest else rest
  }

  /** A payment on one of the company's cases, trashed ones included. */
  predicate PaidToCompany(p: RegistroPago, cases: seq<Expediente>, empresaId: int)
    reads cases
  {
    exists i :: 0 <= i < |cases| && cases[i].id == p.expedienteId && cases[i].empresaId == empresaId
  }

  /** The company's payments, in table order. */
  function CompanyPayments(pagos: seq<RegistroPago>, cases: seq<Expediente>, empresaId: int): (r: seq<RegistroPago>)
    reads cases
    ensures multiset(r) <= multiset(pagos)
    ensures forall p :: p in r <==> p in pagos && PaidToCompany(p, cases, empresaId)
    ensures forall p :: p in pagos && PaidToCompany(p, cases, empresaId) ==> multiset(r)[p] == multiset(pagos)[p]
  {
    if pagos == [] then []
    else
      var rest := CompanyPayments(pagos[1..], cases, empresaId);
      assert pagos == [pagos[0]] + pagos[1..];
      if PaidToCompany(pagos[0], cases, empresaId) then [pagos[0]] + rest else rest
  }

  /** Latest payment first. */
  predicate NewestFirst(ps: seq<RegistroPago>)
  {
    forall i, j :: 0 <= i < j < |ps| ==> ps[i].fechaPago >= ps[j].fechaPago
  }

  /** Puts `p` before the first payment that is not later than it. */
  function Insert(p: RegistroPago, ps: seq<RegistroPago>): (r: seq<RegistroPago>)
    ensures multiset(r) == multiset(ps) + multiset{p}
    ensures |r| == |ps| + 1
    ensures r[0] == p || (ps != [] && r[0] == ps[0])
  {
    if ps == [] then [p]
    else if p.fechaPago >= ps[0].fechaPago then [p] + ps
    else
      assert ps == [ps[0]] + ps[1..];
      [ps[0]] + Insert(p, ps[1..])
  }

  /** Inserting into a latest-first list keeps it latest-first. */
  lemma {:induction false} InsertNewestFirst(p: RegistroPago, ps: seq<RegistroPago>)
    requires NewestFirst(ps)
    ensures NewestFirst(Insert(p, ps))
  {
    if ps == [] {
    } else if p.fechaPago >= ps[0].fechaPago {
      ConsNewestFirst(p, ps);
    } else {
      TailNewestFirst(ps);
      InsertNewestFirst(p, ps[1..]);
      var rest := Insert(p, ps[1..]);
      assert rest[0].fechaPago <= ps[0].fechaPago;
      ConsNewestFirst(ps[0], rest);
    }
  }

  /** Dropping the latest payment keeps the rest in order. */
  lemma TailNewestFirst(ps: seq<RegistroPago>)
    requires ps != [] && NewestFirst(ps)
    ensures NewestFirst(ps[1..])
  {
    var t := ps[1..];
    forall i, j | 0 <= i < j < |t|
      ensures t[i].fechaPago >= t[j].fechaPago
    {
      assert t[i] == ps[i + 1] && t[j] == ps[j + 1];
    }
  }

  /** A payment no earlier than the head of a latest-first list can go in front of it. */
  lemma ConsNewestFirst(x: RegistroPago, ps: seq<RegistroPago>)
    requires NewestFirst(ps)
    requires ps == [] || ps[0].fechaPago <= x.fechaPago
    ensures NewestFirst([x] + ps)
  {
    var r := [x] + ps;
    forall i, j | 0 <= i < j < |r|
      ensures r[i].fechaPago >= r[j].fechaPago
    {
      if i == 0 && j > 1 {
        assert r[j] == ps[j - 1];
        assert ps[0].fechaPago >= ps[j - 1].fechaPago;
      }
    }
  }

  /** `order_by('-fecha_pago')`: the same payments, latest first. */
  function SortNewestFirst(ps: seq<RegistroPago>): (r: seq<RegistroPago>)
    ensures NewestFirst(r)
    ensures multiset(r) == multiset(ps)
  {
    if ps == [] then [] else
      assert ps == [ps[0]] + ps[1..];
      InsertNewestFirst(ps[0], SortNewestFirst(ps[1..]));
      Insert(ps[0], SortNewestFirst(ps[1..]))
  }

  /** What `dashboard_crm` puts in the template context. */
  datatype Dashboard = Dashboard(
    empresa: Empresa,
    impagos: seq<Expediente>,
    pagados: seq<Expediente>,
    regRecobro: seq<RegistroPago>,
    papelera: seq<Expediente>)

  /** `dashboard_crm(request, empresa_id)`; a missing or inactive company is a 404. */
  function DashboardCrm(empresas: seq<Empresa>, cases: seq<Expediente>, pagos: seq<RegistroPago>, empresaId: int): (r: Response<Dashboard>)
    reads empresas, cases
    ensures r.NotFound? <==> FindEmpresa(empresas, empresaId).None? || !FindEmpresa(empresas, empresaId).value.isActive
    ensures r.Found? ==>
      && r.value.empresa == FindEmpresa(empresas, empresaId).value
      && r.value.empresa.isActive && r.value.empresa.id == empresaId
      && r.value.impagos == TabCases(cases, empresaId, Impagos)
      && r.value.pagados == TabCases(cases, empresaId, Pagados)
      && r.value.papelera == TabCases(cases, empresaId, Papelera)
      && r.value.regRecobro == SortNewestFirst(CompanyPayments(pagos, cases, empresaId))
  {
    var found := FindEmpresa(empresas, empresaId);
    if found.None? || !found.value.isActive then NotFound
    else
      Found(Dashboard(
        found.value,
        TabCases(cases, empresaId, Impagos),
        TabCases(cases, empresaId, Pagados),
        SortNewestFirst(CompanyPayments(pagos, cases, empresaId)),
        TabCases(cases, empresaId, Papelera)))
  }

  /**
   * The three case tabs are pairwise disjoint; every case of the company
   * with a non-negative current amount, or in the trash, is in exactly one
   * of them, and an active case with a negative amount is in none.
   */
  lemma TabsPartition(cases: seq<Expediente>, empresaId: int, e: Expediente)
    requires e in cases && e.empresaId == empresaId
    ensures var imp, pag, pap := TabCases(cases, empresaId, Impagos), TabCases(cases, empresaId, Pagados),
                                 TabCases(cases, empresaId, Papelera);
      && !(e in imp && e in pag) && !(e in imp && e in pap) && !(e in pag && e in pap)
      && (e in imp || e in pag || e in pap <==> !e.activo || e.montoActual >= 0)
  {
  }

  /** The payment log holds every payment on the company's cases, latest first. */
  lemma RegRecobroContents(empresas: seq<Empresa>, cases: seq<Expediente>, pagos: seq<RegistroPago>, empresaId: int)
    requires DashboardCrm(empresas, cases, pagos, empresaId).Found?
    ensures var log := DashboardCrm(empresas, cases, pagos, empresaId).value.regRecobro;
      && NewestFirst(log)
      && (forall p :: p in log <==> p in pagos && PaidToCompany(p, cases, empresaId))
      && (forall p :: p in pagos && PaidToCompany(p, cases, empresaId) ==> multiset(log)[p] == multiset(pagos)[p])
  {
    var log := SortNewestFirst(CompanyPayments(pagos, cases, empresaId));
    assert forall p :: p in log <==> p in multiset(log);
  }

  /** The companies with a CRM entry: exactly the active ones, in table order. */
  function ListaCrm(empresas: seq<Empresa>): (r: seq<Empresa>)
    reads empresas
    ensures |r| <= |empresas|
    ensures forall i :: 0 <= i < |r| ==> r[i] in empresas && r[i].isActive
    ensures forall i :: 0 <= i < |empresas| && empresas[i].isActive ==> empresas[i] in r
  {
    if empresas == [] then []
    else
      var rest := ListaCrm(empresas[1..]);
      assert forall i :: 1 <= i < |empresas| ==> empresas[i] == empresas[1..][i - 1];
      if empresas[0].isActive then [empresas[0]] + rest else rest
  }
}
