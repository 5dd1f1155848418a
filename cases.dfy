/**
 * Collection case records (crm/models.py): the `Expediente` with its
 * defaults, soft delete and restore, and the two derived values
 * `tiempo_en_impago` and `deuda_pendiente`; the payment record and the
 * per-company CRM settings row.  Amounts are integer cents, dates day
 * ordinals and date-times abstract instants.
 */
module Cases {
  import opened Wrappers

  /** `Expediente.ESTADOS_GESTION`. */
  datatype EstadoGestion = Activo | Pagado | Cedido | Acuerdo | Inubicable

  const EstadoCodes: seq<string> := ["ACTIVO", "PAGADO", "CEDIDO", "ACUERDO", "INUBICABLE"]

  /** The stored code of a status: one of the five declared choices. */
  function EstadoCode(e: EstadoGestion): (code: string)
    ensures code in EstadoCodes
  {
    match e
    case Activo => "ACTIVO"
    case Pagado => "PAGADO"
    case Cedido => "CEDIDO"
    case Acuerdo => "ACUERDO"
    case Inubicable => "INUBICABLE"
  }

  /** Reads a stored status code; only the five declared codes are accepted, each as its own status. */
  function EstadoFromCode(code: string): (r: Option<EstadoGestion>)
    ensures r.Some? <==> code in EstadoCodes
    ensures r.Some? ==> EstadoCode(r.value) == code
  {
    if code == "ACTIVO" then Some(Activo)
    else if code == "PAGADO" then Some(Pagado)
    else if code == "CEDIDO" then Some(Cedido)
    else if code == "ACUERDO" then Some(Acuerdo)
    else if code == "INUBICABLE" then Some(Inubicable)
    else None
  }

  /** `Expediente.CAUSAS_IMPAGO`. */
  datatype CausaImpago =
    | NoQuiere | Corta | AyudaFamiliar | Inexistente | FueraServicio | Equivocado | NoAtiende
    | Intentara | Pagara | Reembolsado | SeReembolsa | NoPuede | Esperando

  const CausaCodes: seq<string> := [
    "NO_QUIERE", "CORTA", "AYUDA_FAMILIAR", "INEXISTENTE", "FUERA_SERVICIO", "EQUIVOCADO",
    "NO_ATIENDE", "INTENTARA", "PAGARA", "REEMBOLSADO", "SE_REEMBOLSA", "NO_PUEDE", "ESPERANDO"]

  /** The stored code of a cause: one of the thirteen declared choices. */
  function CausaCode(c: CausaImpago): (code: string)
    ensures code in CausaCodes
  {
    match c
    case NoQuiere => "NO_QUIERE"
    case Corta => "CORTA"
    case AyudaFamiliar => "AYUDA_FAMILIAR"
    case Inexistente => "INEXISTENTE"
    case FueraServicio => "FUERA_SERVICIO"
    case Equivocado => "EQUIVOCADO"
    case NoAtiende => "NO_ATIENDE"
    case Intentara => "INTENTARA"
    case Pagara => "PAGARA"
    case Reembolsado => "REEMBOLSADO"
    case SeReembolsa => "SE_REEMBOLSA"
    case NoPuede => "NO_PUEDE"
    case Esperando => "ESPERANDO"
  }

  /** Reads a stored cause code; only the thirteen declared codes are accepted, each as its own cause. */
  function CausaFromCode(code: string): (r: Option<CausaImpago>)
    ensures r.Some? <==> code in CausaCodes
    ensures r.Some? ==> CausaCode(r.value) == code
  {
    if code == "NO_QUIERE" then Some(NoQuiere)
    else if code == "CORTA" then Some(Corta)
    else if code == "AYUDA_FAMILIAR" then Some(AyudaFamiliar)
    else if code == "INEXISTENTE" then Some(Inexistente)
    else if code == "FUERA_SERVICIO" then Some(FueraServicio)
    else if code == "EQUIVOCADO" then Some(Equivocado)
    else if code == "NO_ATIENDE" then Some(NoAtiende)
    else if code == "INTENTARA" then Some(Intentara)
    else if code == "PAGARA" then Some(Pagara)
    else if code == "REEMBOLSADO" then Some(Reembolsado)
    else if code == "SE_REEMBOLSA" then Some(SeReembolsa)
    else if code == "NO_PUEDE" then Some(NoPuede)
    else if code == "ESPERANDO" then Some(Esperando)
    else None
  }

  /** A `CRMConfig` row: one per company (one-to-one on `empresa`). */
  datatype CrmConfig = CrmConfig(empresaId: int, tieneCedidos: bool, fechaCreacion: int)

  /** A `RegistroPago` row: a payment on one case; the receipt file is not represented. */
  datatype RegistroPago = RegistroPago(
    id: int,
    expedienteId: int,
    monto: int,
    fechaPago: int,
    metodoPago: string,
    fechaRegistro: int)

  /**
   * An `Expediente` row.  `id` is the primary key.  The ten follow-up ticks
   * `w1..w5` and `ll1..ll5` and the four bureau flags are separate fields as
   * in the source.
   */
  class Expediente {
    const id: int
    var empresaId: int
    var agenteId: Option<int>
    var numeroExpediente: string
    var deudorNombre: string
    var deudorDni: Option<string>
    var deudorTelefono: string
    var deudorEmail: Option<string>
    var deudorDireccion: Option<string>
    var fechaCesion: Option<int>
    var tipoProducto: string
    var montoOriginal: int
    var montoActual: int
    var montoRecuperado: int
    var cuotasTotales: int
    var fechaCompra: Option<int>
    var fechaImpago: int
    var fechaRecepcion: int
    var estado: EstadoGestion
    var causaImpago: Option<CausaImpago>
    var comentarios: Option<string>
    var activo: bool
    var fechaEliminacion: Option<int>
    var w1: bool
    var ll1: bool
    var w2: bool
    var ll2: bool
    var w3: bool
    var ll3: bool
    var w4: bool
    var ll4: bool
    var w5: bool
    var ll5: bool
    var buroEnviado: bool
    var buroRecibido: bool
    var asnefInscrito: bool
    var llamadaSeguimientoAsnef: bool

    /** A case is in the trash exactly when it carries a deletion instant. */
    predicate Consistent()
      reads this
    {
      activo <==> fechaEliminacion == None
    }

    predicate NoTicks()
      reads this
    {
      !w1 && !ll1 && !w2 && !ll2 && !w3 && !ll3 && !w4 && !ll4 && !w5 && !ll5
    }

    predicate NoBureauFlags()
      reads this
    {
      !buroEnviado && !buroRecibido && !asnefInscrito && !llamadaSeguimientoAsnef
    }

    /**
     * A case created with the required fields only: every other field takes
     * its declared default (status ACTIVO, nothing recovered, one instalment,
     * active, received today, no ticks and no bureau flags).
     */
    constructor (id: int, empresaId: int, numeroExpediente: string, deudorNombre: string,
                 deudorTelefono: string, tipoProducto: string, montoOriginal: int,
                 montoActual: int, fechaImpago: int, today: int)
      ensures this.id == id && this.empresaId == empresaId
      ensures this.numeroExpediente == numeroExpediente && this.deudorNombre == deudorNombre
      ensures this.deudorTelefono == deudorTelefono && this.tipoProducto == tipoProducto
      ensures this.montoOriginal == montoOriginal && this.montoActual == montoActual
      ensures this.fechaImpago == fechaImpago && fechaRecepcion == today
      ensures estado == Activo && montoRecuperado == 0 && cuotasTotales == 1
      ensures activo && fechaEliminacion == None
      ensures agenteId == None && deudorDni == None && deudorEmail == None && deudorDireccion == None
      ensures fechaCesion == None && fechaCompra == None && causaImpago == None && comentarios == None
      ensures NoTicks() && NoBureauFlags()
      ensures Consistent()
    {
      this.id := id;
      this.empresaId := empresaId;
      this.numeroExpediente := numeroExpediente;
      this.deudorNombre := deudorNombre;
      this.deudorTelefono := deudorTelefono;
      this.tipoProducto := tipoProducto;
      this.montoOriginal := montoOriginal;
      this.montoActual := montoActual;
      this.fechaImpago := fechaImpago;
      fechaRecepcion := today;
      agenteId, deudorDni, deudorEmail, deudorDireccion := None, None, None, None;
      fechaCesion, fechaCompra, causaImpago, comentarios := None, None, None, None;
      estado := Activo;
      montoRecuperado := 0;
      cuotasTotales := 1;
      activo := true;
      fechaEliminacion := None;
      w1, ll1, w2, ll2, w3, ll3, w4, ll4, w5, ll5 := false, false, false, false, false, false, false, false, false, false;
      buroEnviado, buroRecibido, asnefInscrito, llamadaSeguimientoAsnef := false, false, false, false;
    }

    /** `eliminar_logico`: moves the case to the trash, stamped with the current instant; nothing else changes. */
    method EliminarLogico(now: int)
      modifies this`activo, this`fechaEliminacion
      ensures !activo && fechaEliminacion == Some(now)
      ensures Consistent()
    {
      activo := false;
      fechaEliminacion := Some(now);
    }

    /** `restaurar`: takes the case out of the trash and clears the deletion instant; nothing else changes. */
    method Restaurar()
      modifies this`activo, this`fechaEliminacion
      ensures activo && fechaEliminacion == None
      ensures Consistent()
    {
      activo := true;
      fechaEliminacion := None;
    }

    /** `tiempo_en_impago`: signed whole days from the default date to `today` (UTC date of `timezone.now()`). */
    function TiempoEnImpago(today: int): int
      reads this
    {
      today - fechaImpago
    }

    /** `deuda_pendiente`: the original amount less what was recovered, not clamped at zero. */
    function DeudaPendiente(): int
      reads this
    {
      montoOriginal - montoRecuperado
    }
  }

  /** Trashing an active case and restoring it brings back exactly its state before the deletion. */
  method SoftDeleteRoundTrip(e: Expediente, now: int)
    requires e.Consistent() && e.activo
    modifies e`activo, e`fechaEliminacion
    ensures e.activo == old(e.activo) && e.fechaEliminacion == old(e.fechaEliminacion)
  {
    e.EliminarLogico(now);
    e.Restaurar();
  }

  /**
   * Deleting a second time at the same instant leaves the state the first
   * deletion left: `activo` and `fechaEliminacion` after one call are
   * returned and equal the state after two.
   */
  method EliminarTwice(e: Expediente, now: int) returns (activoOnce: bool, fechaOnce: Option<int>)
    modifies e`activo, e`fechaEliminacion
    ensures e.activo == activoOnce && e.fechaEliminacion == fechaOnce
  {
    e.EliminarLogico(now);
    activoOnce, fechaOnce := e.activo, e.fechaEliminacion;
    e.EliminarLogico(now);
  }

  /** Restoring a second time leaves the state the first restore left. */
  method RestaurarTwice(e: Expediente) returns (activoOnce: bool, fechaOnce: Option<int>)
    modifies e`activo, e`fechaEliminacion
    ensures e.activo == activoOnce && e.fechaEliminacion == fechaOnce
  {
    e.Restaurar();
    activoOnce, fechaOnce := e.activo, e.fechaEliminacion;
    e.Restaurar();
  }

  /** The day count is 0 on the default day, negative before it, and grows by one per day. */
  lemma TiempoEnImpagoCounts(e: Expediente, today: int)
    ensures e.TiempoEnImpago(e.fechaImpago) == 0
    ensures e.TiempoEnImpago(today) < 0 <==> today < e.fechaImpago
    ensures e.TiempoEnImpago(today + 1) == e.TiempoEnImpago(today) + 1
  {
  }

  /** What is still owed and what was recovered add up to the original amount; over-recovery shows as a negative debt. */
  lemma DeudaPendienteBalance(e: Expediente)
    ensures e.DeudaPendiente() + e.montoRecuperado == e.montoOriginal
    ensures e.DeudaPendiente() < 0 <==> e.montoRecuperado > e.montoOriginal
    ensures e.DeudaPendiente() == 0 <==> e.montoRecuperado == e.montoOriginal
  {
  }
}
