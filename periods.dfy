/**
 * Weekly accounting periods (core/models.py): a period runs from a Friday to
 * the following Thursday, is identified by the code `SEM-YYYY-MM-DD` of its
 * Friday, and `PeriodoManager.get_periodo_actual` looks today's period up by
 * that code, creating it on first use.
 */
module Periods {
  import opened Wrappers
  import opened Text
  import opened Calendar

  datatype TipoPeriodo = Semanal | Mensual

  /** The stored choice value of a period type. */
  function TipoCode(t: TipoPeriodo): string
  {
    match t
    case Semanal => "SEM"
    case Mensual => "MEN"
  }

  /**
   * A `Periodo` row.  `createdAt`, `updatedAt` and `isActive` are the fields
   * inherited from `TimeStampedModel`.
   */
  datatype Periodo = Periodo(
    tipo: TipoPeriodo,
    fechaInicio: Ordinal,
    fechaFin: Ordinal,
    cerrado: bool,
    codigo: string,
    createdAt: int,
    updatedAt: int,
    isActive: bool)

  /**
   * The clock as a row is inserted: Django's `pre_save` reads `timezone.now()`
   * once for `created_at` (`auto_now_add`) and once more for `updated_at`
   * (`auto_now`), so the two stamps are separate readings.
   */
  datatype SaveClock = SaveClock(createdAt: int, updatedAt: int)

  /** `TimeStampedModel` on creation: each stamp is its own clock reading and the row is active. */
  function NewPeriodo(tipo: TipoPeriodo, inicio: Ordinal, fin: Ordinal, cerrado: bool, codigo: string, now: SaveClock): (p: Periodo)
    ensures p.createdAt == now.createdAt && p.updatedAt == now.updatedAt && p.isActive
    ensures p.tipo == tipo && p.fechaInicio == inicio && p.fechaFin == fin
    ensures p.cerrado == cerrado && p.codigo == codigo
  {
    Periodo(tipo, inicio, fin, cerrado, codigo, now.createdAt, now.updatedAt, true)
  }

  /** Subtracting or adding a `timedelta` left Python's date range. */
  datatype DateOverflow = DateOverflow

  /** The Friday-to-Thursday week of a day and its code. */
  datatype Week = Week(inicio: Ordinal, fin: Ordinal)

  /** How many days lie between today and the last Friday on or before it. */
  function DaysBack(today: int): (k: int)
    ensures 0 <= k <= 6
    ensures Weekday(today - k) == Friday
    ensures k == 0 <==> Weekday(today) == Friday
  {
    (Weekday(today) - Friday) % 7
  }

  /** The Friday on or before `today`. */
  function WeekStart(today: int): int
  {
    today - DaysBack(today)
  }

  /** The unique code of the week starting on `inicio`. */
  function WeekCode(inicio: Ordinal): string
  {
    "SEM-" + Iso(FromOrdinal(inicio))
  }

  /**
   * The week `get_periodo_actual` computes for `today`, or the OverflowError
   * Python raises when its Friday or its Thursday is outside `date`'s range.
   */
  function CurrentWeek(today: Ordinal): Result<Week>
  {
    var inicio := WeekStart(today);
    if inicio < 1 then Err(DateOverflow)
    else
      var fin := inicio + 6;
      if fin > MaxOrdinal then Err(DateOverflow)
      else Ok(Week(inicio, fin))
  }

  datatype Result<T> = Ok(value: T) | Err(error: DateOverflow)

  /** A Saturday steps back one day to its Friday, a Thursday six. */
  lemma DaysBackExamples(today: int)
    ensures Weekday(today) == Saturday ==> DaysBack(today) == 1
    ensures Weekday(today) == Thursday ==> DaysBack(today) == 6
    ensures Weekday(today) == Friday ==> DaysBack(today) == 0
  {
  }

  /** Two Fridays less than a week apart are the same day. */
  lemma FridayUnique(x: int, y: int)
    requires Weekday(x) == Friday && Weekday(y) == Friday
    requires x <= y < x + 7
    ensures x == y
  {
  }

  /** The Thursday six days after a Friday. */
  lemma ThursdayAfterFriday(x: int)
    requires Weekday(x) == Friday
    ensures Weekday(x + 6) == Thursday
  {
  }

  /** The week starts on a Friday on or before today and ends six days later, on a Thursday. */
  lemma CurrentWeekBrackets(today: Ordinal)
    requires CurrentWeek(today).Ok?
    ensures var w := CurrentWeek(today).value;
      && Weekday(w.inicio) == Friday && Weekday(w.fin) == Thursday
      && w.fin == w.inicio + 6
      && w.inicio <= today <= w.fin
  {
    ThursdayAfterFriday(CurrentWeek(today).value.inicio);
  }

  /** Only the first four days of year 1 and the last day of year 9999 overflow. */
  lemma CurrentWeekOverflow(today: Ordinal)
    ensures CurrentWeek(today).Err? <==> today <= 4 || today == MaxOrdinal
  {
  }

  /** Two days get the same code exactly when they fall in the same Friday-to-Thursday week. */
  lemma SameWeekSameCode(a: Ordinal, b: Ordinal)
    requires CurrentWeek(a).Ok? && CurrentWeek(b).Ok?
    ensures WeekCode(CurrentWeek(a).value.inicio) == WeekCode(CurrentWeek(b).value.inicio)
        <==> CurrentWeek(a).value.inicio <= b <= CurrentWeek(a).value.fin
  {
    var wa, wb := CurrentWeek(a).value, CurrentWeek(b).value;
    SameStart(a, b);
    assert wa.inicio == WeekStart(a) && wa.fin == wa.inicio + 6 && wb.inicio == WeekStart(b);
    if WeekCode(wa.inicio) == WeekCode(wb.inicio) {
      WeekCodeInjective(wa.inicio, wb.inicio);
    }
  }

  /** A day lies in another day's week exactly when both weeks start on the same Friday. */
  lemma SameStart(a: int, b: int)
    ensures WeekStart(a) <= b <= WeekStart(a) + 6 <==> WeekStart(a) == WeekStart(b)
  {
    var sa, sb := WeekStart(a), WeekStart(b);
    if sa <= b <= sa + 6 {
      if sa <= sb {
        FridayUnique(sa, sb);
      } else {
        FridayUnique(sb, sa);
      }
    }
  }

  /** Distinct start dates give distinct week codes. */
  lemma WeekCodeInjective(x: Ordinal, y: Ordinal)
    requires WeekCode(x) == WeekCode(y)
    ensures x == y
  {
    assert WeekCode(x)[4..] == Iso(FromOrdinal(x));
    assert WeekCode(y)[4..] == Iso(FromOrdinal(y));
    IsoOfOrdinalInjective(x, y);
  }

  /** The table of periods, keyed by the unique `codigo`. */
  type PeriodTable = map<string, Periodo>

  predicate KeyedByCode(table: PeriodTable)
  {
    forall c :: c in table ==> table[c].codigo == c
  }

  /**
   * `get_or_create(codigo=…, defaults=…)`: the stored period when the code is
   * present, otherwise a new weekly, open period with the computed dates.
   */
  function LookupOrCreate(table: PeriodTable, today: Ordinal, now: SaveClock): (Result<Periodo>, PeriodTable)
  {
    match CurrentWeek(today)
    case Err(e) => (Err(e), table)
    case Ok(w) =>
      var codigo := WeekCode(w.inicio);
      if codigo in table then (Ok(table[codigo]), table)
      else
        var p := NewPeriodo(Semanal, w.inicio, w.fin, false, codigo, now);
        (Ok(p), table[codigo := p])
  }

  /**
   * What one call does to the table: an existing period comes back unchanged
   * (even a closed one) and nothing is added; otherwise exactly one weekly,
   * open period with the week's dates is added under its code.
   */
  lemma LookupOrCreateEffect(table: PeriodTable, today: Ordinal, now: SaveClock)
    requires KeyedByCode(table)
    requires CurrentWeek(today).Ok?
    ensures var w := CurrentWeek(today).value;
      var (r, table') := LookupOrCreate(table, today, now);
      && r.Ok? && r.value.codigo == WeekCode(w.inicio)
      && KeyedByCode(table')
      && table'.Keys == table.Keys + {WeekCode(w.inicio)}
      && |table'| <= |table| + 1
      && (forall c :: c in table ==> table'[c] == table[c])
      && (WeekCode(w.inicio) in table ==> r.value == table[WeekCode(w.inicio)] && table' == table)
      && (WeekCode(w.inicio) !in table ==>
            r.value == NewPeriodo(Semanal, w.inicio, w.fin, false, WeekCode(w.inicio), now)
            && |table'| == |table| + 1)
  {
    var w := CurrentWeek(today).value;
    var codigo := WeekCode(w.inicio);
    if codigo !in table {
      var p := NewPeriodo(Semanal, w.inicio, w.fin, false, codigo, now);
      assert LookupOrCreate(table, today, now) == (Ok(p), table[codigo := p]);
      assert |table[codigo := p]| == |table| + 1;
    }
  }

  /** A second call in the same week returns the period of the first and creates nothing. */
  lemma {:induction false} SecondCallSameWeek(table: PeriodTable, first: Ordinal, second: Ordinal, now1: SaveClock, now2: SaveClock)
    requires KeyedByCode(table)
    requires CurrentWeek(first).Ok?
    requires CurrentWeek(first).value.inicio <= second <= CurrentWeek(first).value.fin
    ensures var (r1, t1) := LookupOrCreate(table, first, now1);
      LookupOrCreate(t1, second, now2) == (r1, t1)
  {
    var w := CurrentWeek(first).value;
    assert w.inicio == WeekStart(first) && w.fin == w.inicio + 6;
    SameStart(first, second);
    assert CurrentWeek(second) == CurrentWeek(first);
    LookupOrCreateEffect(table, first, now1);
  }

  /** The bracketed state at the end of a period's text. */
  function EstadoTag(cerrado: bool): string
  {
    if cerrado then "[CERRADO]" else "[ACTIVO]"
  }

  /**
   * `Periodo.__str__`: `"<codigo> (<inicio> al <fin>) [<estado>]"` with the
   * state CERRADO or ACTIVO.
   */
  function PeriodoStr(p: Periodo): (s: string)
    ensures StartsWith(s, p.codigo)
  {
    var dates := " (" + Iso(FromOrdinal(p.fechaInicio)) + " al " + Iso(FromOrdinal(p.fechaFin)) + ") ";
    assert (p.codigo + dates + EstadoTag(p.cerrado))[..|p.codigo|] == p.codigo;
    p.codigo + dates + EstadoTag(p.cerrado)
  }

  predicate EndsWith(s: string, suffix: string)
  {
    |suffix| <= |s| && s[|s| - |suffix|..] == suffix
  }

  /** Whatever precedes the tag, the text ends with `[CERRADO]` exactly when closed and with `[ACTIVO]` exactly when open. */
  lemma TaggedState(head: string, cerrado: bool)
    ensures EndsWith(head + EstadoTag(cerrado), "[CERRADO]") <==> cerrado
    ensures EndsWith(head + EstadoTag(cerrado), "[ACTIVO]") <==> !cerrado
  {
    var s := head + EstadoTag(cerrado);
    if cerrado {
      assert s[|s| - 9..] == "[CERRADO]";
      assert s[|s| - 8..] != "[ACTIVO]" by { assert s[|s| - 8] == 'C'; }
    } else {
      assert s[|s| - 8..] == "[ACTIVO]";
      if |s| >= 9 {
        assert s[|s| - 9..] != "[CERRADO]" by { assert s[|s| - 8] == '['; }
      }
    }
  }

  /** The text of a period ends with `[CERRADO]` exactly for a closed period and with `[ACTIVO]` exactly for an open one. */
  lemma PeriodoStrState(p: Periodo)
    ensures EndsWith(PeriodoStr(p), "[CERRADO]") <==> p.cerrado
    ensures EndsWith(PeriodoStr(p), "[ACTIVO]") <==> !p.cerrado
  {
    var dates := " (" + Iso(FromOrdinal(p.fechaInicio)) + " al " + Iso(FromOrdinal(p.fechaFin)) + ") ";
    TaggedState(p.codigo + dates, p.cerrado);
  }

  /**
   * The period table `Periodo.objects` manages.  `Valid` is the database's
   * unique constraint on `codigo`.
   */
  class PeriodoManager {
    var table: PeriodTable

    ghost predicate Valid()
      reads this
    {
      KeyedByCode(table)
    }

    constructor ()
      ensures Valid() && table == map[]
    {
      table := map[];
    }

    /**
     * `get_periodo_actual`, with today's local date and the creation instant
     * passed in.  The table changes only by the one insert of LookupOrCreate.
     */
    method GetPeriodoActual(today: Ordinal, now: SaveClock) returns (r: Result<Periodo>)
      requires Valid()
      modifies this
      ensures Valid()
      ensures (r, table) == LookupOrCreate(old(table), today, now)
      ensures |table| <= |old(table)| + 1
    {
      var week := CurrentWeek(today);
      if week.Err? {
        return Err(week.error);
      }
      var w := week.value;
      var codigo := WeekCode(w.inicio);
      if codigo in table {
        r := Ok(table[codigo]);
      } else {
        var p := NewPeriodo(Semanal, w.inicio, w.fin, false, codigo, now);
        table := table[codigo := p];
        r := Ok(p);
      }
    }
  }
}
