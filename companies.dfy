/**
 * Client companies and their commission schemes (empresas/models.py).  Only
 * the declarations are modelled: the listing aggregates of `Empresa` are
 * constant placeholders in the source.
 */
module Companies {
  import opened Wrappers

  /** `OPCIONES_IMPAGOS`: the payment products a company's defaults come from. */
  datatype OpcionImpago = SequraHotmart | SequraManual | SequraCopecart | SequraPass | AutoStripe | Autofinanciacion

  function OpcionCode(o: OpcionImpago): string
  {
    match o
    case SequraHotmart => "SEQURA_HOTMART"
    case SequraManual => "SEQURA_MANUAL"
    case SequraCopecart => "SEQURA_COPECART"
    case SequraPass => "SEQURA_PASS"
    case AutoStripe => "AUTO_STRIPE"
    case Autofinanciacion => "AUTOFINANCIACION"
  }

  /** Different products are stored under different codes. */
  lemma OpcionCodeInjective(a: OpcionImpago, b: OpcionImpago)
    requires OpcionCode(a) == OpcionCode(b)
    ensures a == b
  {
  }

  /** `EsquemaComision.TIPO_CASO_CHOICES`. */
  datatype TipoCaso = Impago | Cedido

  function TipoCasoCode(t: TipoCaso): string
  {
    match t
    case Impago => "IMPAGO"
    case Cedido => "CEDIDO"
  }

  /** `EsquemaComision.MODALIDAD_CHOICES`. */
  datatype Modalidad = Fijo | Tramos

  function ModalidadCode(m: Modalidad): string
  {
    match m
    case Fijo => "FIJO"
    case Tramos => "TRAMOS"
  }

  /**
   * An `EsquemaComision` row; `tipoProducto == None` means "all products".
   * Percentages are in hundredths of a percent.
   */
  datatype EsquemaComision = EsquemaComision(
    empresaId: int,
    tipoCaso: TipoCaso,
    tipoProducto: Option<OpcionImpago>,
    modalidad: Modalidad,
    porcentajeFijo: Option<int>)

  /** A `TramoComision` row: a band of a tiered scheme, amounts in cents. */
  datatype TramoComision = TramoComision(
    esquemaId: int,
    montoMinimo: int,
    montoMaximo: Option<int>,
    porcentaje: int)

  /**
   * An `Empresa` row.  `id` is the primary key; dates are day ordinals.  The
   * contact, banking, note and contract-file fields are not read or written
   * by any modelled operation and are not represented.
   */
  class Empresa {
    const id: int
    var nombre: string
    var razonSocial: string
    var cifNif: string
    var fechaAlta: int
    var isActive: bool
    var fechaBaja: Option<int>
    var tiposImpagos: string

    /** A new company: active, no leaving date, registered today unless told otherwise. */
    constructor (id: int, nombre: string, razonSocial: string, cifNif: string, tiposImpagos: string, today: int)
      ensures this.id == id && this.nombre == nombre && this.razonSocial == razonSocial
      ensures this.cifNif == cifNif && this.tiposImpagos == tiposImpagos
      ensures fechaAlta == today && isActive && fechaBaja == None
    {
      this.id := id;
      this.nombre := nombre;
      this.razonSocial := razonSocial;
      this.cifNif := cifNif;
      this.tiposImpagos := tiposImpagos;
      fechaAlta := today;
      isActive := true;
      fechaBaja := None;
    }
  }
}
