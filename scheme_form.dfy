/**
 * The commission-scheme form script (static/js/empresas/scripts_esquema.js):
 * showing the product selector and the fixed/tiered sections for the chosen
 * case type and mode, the dynamic formset of commission bands (adding and
 * deleting rows while keeping Django's `TOTAL_FORMS` counter), and the
 * checks run before the form is submitted.
 */
module SchemeForm {
  import opened Wrappers
  import opened Text
  import opened Dom

  // ---------------------------------------------------------------- visibility

  /**
   * `toggleCaso()`: a `CEDIDO` case type hides the product selector, any
   * other value (or a missing select) shows it.  With `CEDIDO` chosen and
   * no selector on the page the handler throws, reported as `failed`.
   */
  method ToggleCaso(selectCaso: Option<string>, divProducto: Element?) returns (failed: bool)
    modifies divProducto
    ensures failed <==> selectCaso == Some("CEDIDO") && divProducto == null
    ensures divProducto != null ==>
      divProducto.display == if selectCaso == Some("CEDIDO") then "none" else "block"
  {
    failed := false;
    if selectCaso.Some? && selectCaso.value == "CEDIDO" {
      if divProducto == null {
        failed := true;
      } else {
        divProducto.display := "none";
      }
    } else if divProducto != null {
      divProducto.display := "block";
    }
  }

  /**
   * `toggleModalidad()`: the tiers section is shown and the fixed section
   * hidden iff the mode is `TRAMOS`; otherwise the other way round, so
   * exactly one of the two is visible.
   */
  method ToggleModalidad(selectModalidad: Option<string>, divFijo: Element?, divTramos: Element?)
    requires divFijo != null ==> divFijo != divTramos
    modifies divFijo, divTramos
    ensures divFijo != null ==> divFijo.display == if selectModalidad == Some("TRAMOS") then "none" else "block"
    ensures divTramos != null ==> divTramos.display == if selectModalidad == Some("TRAMOS") then "block" else "none"
    ensures divFijo != null && divTramos != null ==>
      (divFijo.display == "block" <==> divTramos.display != "block")
  {
    if selectModalidad.Some? && selectModalidad.value == "TRAMOS" {
      if divFijo != null { divFijo.display := "none"; }
      if divTramos != null { divTramos.display := "block"; }
    } else {
      if divFijo != null { divFijo.display := "block"; }
      if divTramos != null { divTramos.display := "none"; }
    }
  }

  // ---------------------------------------------------------------- template expansion

  /** The placeholder Django puts in a formset's empty form. */
  const Placeholder := "__prefix__"

  /** `s.replace(/pat/g, rep)`: every occurrence, scanning left to right without overlaps. */
  function ReplaceAll(s: string, pat: string, rep: string): string
    requires pat != []
    decreases |s|
  {
    if |s| < |pat| then s
    else if StartsWith(s, pat) then rep + ReplaceAll(s[|pat|..], pat, rep)
    else [s[0]] + ReplaceAll(s[1..], pat, rep)
  }

  /** No character of `rep` occurs in `pat`. */
  predicate Disjoint(rep: string, pat: string)
  {
    forall i, j :: 0 <= i < |rep| && 0 <= j < |pat| ==> rep[i] != pat[j]
  }

  /** Text built only from characters of `pat` that the expansion starts with was already there. */
  lemma {:induction false} ExpansionPrefix(t: string, pat: string, rep: string, w: string)
    requires pat != [] && rep != [] && Disjoint(rep, pat)
    requires forall i :: 0 <= i < |w| ==> w[i] in pat
    ensures StartsWith(ReplaceAll(t, pat, rep), w) ==> StartsWith(t, w)
    decreases |t|
  {
    if w != [] && |t| >= |pat| {
      var o := ReplaceAll(t, pat, rep);
      if StartsWith(t, pat) {
        assert o[0] == rep[0];
        assert forall j :: 0 <= j < |pat| ==> pat[j] != rep[0];
        assert w[0] in pat;
        assert w[0] != o[0];
      } else {
        var rest := ReplaceAll(t[1..], pat, rep);
        assert o == [t[0]] + rest;
        assert forall i :: 0 <= i < |w[1..]| ==> w[1..][i] == w[i + 1];
        ExpansionPrefix(t[1..], pat, rep, w[1..]);
        if StartsWith(o, w) {
          assert StartsWith(rest, w[1..]) by {
            assert rest[..|w| - 1] == o[1..|w|];
          }
          assert t[..|w|] == [t[0]] + t[1..][..|w| - 1];
        }
      }
    }
  }

  /**
   * When the replacement shares no character with the pattern, no
   * occurrence of the pattern is left: every `__prefix__` of the template
   * is replaced and none is formed anew.
   */
  lemma {:induction false} ReplaceAllRemoves(s: string, pat: string, rep: string)
    requires pat != [] && rep != [] && Disjoint(rep, pat)
    ensures !Contains(ReplaceAll(s, pat, rep), pat)
    decreases |s|
  {
    var o := ReplaceAll(s, pat, rep);
    if |s| < |pat| {
      assert forall i :: 0 <= i <= |o| ==> !StartsWith(o[i..], pat);
    } else if StartsWith(s, pat) {
      var rest := ReplaceAll(s[|pat|..], pat, rep);
      ReplaceAllRemoves(s[|pat|..], pat, rep);
      forall i | 0 <= i <= |o|
        ensures !StartsWith(o[i..], pat)
      {
        if i < |rep| {
          assert o[i] == rep[i] && rep[i] != pat[0];
        } else {
          assert o[i..] == rest[i - |rep|..];
          assert !StartsWith(rest[i - |rep|..], pat);
        }
      }
    } else {
      var rest := ReplaceAll(s[1..], pat, rep);
      ReplaceAllRemoves(s[1..], pat, rep);
      forall i | 0 <= i <= |o|
        ensures !StartsWith(o[i..], pat)
      {
        if i == 0 {
          ExpansionPrefix(s, pat, rep, pat);
        } else {
          assert o[i..] == rest[i - 1..];
          assert !StartsWith(rest[i - 1..], pat);
        }
      }
    }
  }

  /** A row index written in decimal never contains the placeholder's characters. */
  lemma DecimalAvoidsPlaceholder(n: nat)
    ensures Disjoint(Decimal(n), Placeholder)
  {
    assert Placeholder == ['_', '_', 'p', 'r', 'e', 'f', 'i', 'x', '_', '_'];
    assert forall j :: 0 <= j < |Placeholder| ==> !('0' <= Placeholder[j] <= '9');
  }

  // ---------------------------------------------------------------- the formset

  /** A commission band row of the table: its inputs, its optional DELETE checkbox and its visibility. */
  class Row {
    const html: string
    const hasDeleteBox: bool
    var deleteChecked: bool
    var hidden: bool
    var montoMinimo: string
    var porcentaje: string

    constructor(html: string, hasDeleteBox: bool, montoMinimo: string, porcentaje: string)
      ensures this.html == html && this.hasDeleteBox == hasDeleteBox
      ensures this.montoMinimo == montoMinimo && this.porcentaje == porcentaje
      ensures !deleteChecked && !hidden
    {
      this.html := html;
      this.hasDeleteBox := hasDeleteBox;
      this.montoMinimo := montoMinimo;
      this.porcentaje := porcentaje;
      deleteChecked := false;
      hidden := false;
    }
  }

  /** A band that fills in both the minimum amount and the percentage; the maximum is never required. */
  predicate Complete(r: Row)
    reads r
  {
    JsTrim(r.montoMinimo) != "" && JsTrim(r.porcentaje) != ""
  }

  /** A band with a blank minimum amount is not complete. */
  lemma BlankIncomplete(r: Row)
    requires r.montoMinimo == ""
    ensures !Complete(r)
  {
    assert JsTrim("") == "";
  }

  /**
   * The band table (`tramosBody`), Django's `TOTAL_FORMS` counter and the
   * `empty-form` template new rows are made from.
   */
  class TramoFormset {
    var totalForms: nat
    var rows: seq<Row>
    const template: string
    const templateHasDeleteBox: bool

    /** Each table row is a distinct element. */
    predicate Valid()
      reads this
    {
      forall i, j :: 0 <= i < j < |rows| ==> rows[i] != rows[j]
    }

    /** Some visible row is complete: what the `TRAMOS` submit check looks for. */
    predicate HasCompleteTramo()
      reads this, rows
    {
      exists j :: 0 <= j < |rows| && !rows[j].hidden && Complete(rows[j])
    }

    constructor(totalForms: nat, rows: seq<Row>, template: string, templateHasDeleteBox: bool)
      requires forall i, j :: 0 <= i < j < |rows| ==> rows[i] != rows[j]
      ensures Valid()
      ensures this.totalForms == totalForms && this.rows == rows
      ensures this.template == template && this.templateHasDeleteBox == templateHasDeleteBox
    {
      this.totalForms := totalForms;
      this.rows := rows;
      this.template := template;
      this.templateHasDeleteBox := templateHasDeleteBox;
    }

    /**
     * The add-band button: the new row is the template with every
     * placeholder replaced by the current `TOTAL_FORMS`, appended with blank
     * inputs, and the counter goes up by exactly one.  A blank row does not
     * make the tiers complete.
     */
    method AddRow() returns (row: Row)
      requires Valid()
      modifies this
      ensures Valid()
      ensures fresh(row)
      ensures rows == old(rows) + [row]
      ensures totalForms == old(totalForms) + 1
      ensures row.html == ReplaceAll(template, Placeholder, Decimal(old(totalForms)))
      ensures !Contains(row.html, Placeholder)
      ensures row.hasDeleteBox == templateHasDeleteBox && !row.hidden && !row.deleteChecked
      ensures row.montoMinimo == "" && row.porcentaje == ""
      ensures HasCompleteTramo() <==> old(HasCompleteTramo())
    {
      var formIdx := totalForms;
      var html := ReplaceAll(template, Placeholder, Decimal(formIdx));
      DecimalAvoidsPlaceholder(formIdx);
      ReplaceAllRemoves(template, Placeholder, Decimal(formIdx));
      row := new Row(html, templateHasDeleteBox, "", "");
      rows := rows + [row];
      totalForms := formIdx + 1;
      BlankIncomplete(row);
      assert forall j :: 0 <= j < |old(rows)| ==> rows[j] == old(rows)[j];
    }

    /**
     * The delete button of row `i`: a row with a DELETE checkbox is ticked
     * for deletion and hidden but stays in the form; a row without one is
     * removed.  `TOTAL_FORMS` is left as it was, and deleting never makes
     * the tiers complete.
     */
    method DeleteRow(i: int)
      requires Valid() && 0 <= i < |rows|
      modifies this, rows[i]
      ensures Valid()
      ensures totalForms == old(totalForms)
      ensures old(rows[i].hasDeleteBox) ==>
        && rows == old(rows) && rows[i].deleteChecked && rows[i].hidden
        && rows[i].montoMinimo == old(rows[i].montoMinimo)
        && rows[i].porcentaje == old(rows[i].porcentaje)
      ensures !old(rows[i].hasDeleteBox) ==>
        rows == old(rows[..i] + rows[i + 1..]) && unchanged(old(rows[i]))
      ensures HasCompleteTramo() ==> old(HasCompleteTramo())
    {
      var row := rows[i];
      if row.hasDeleteBox {
        row.deleteChecked := true;
        row.hidden := true;
      } else {
        rows := rows[..i] + rows[i + 1..];
        assert forall j :: 0 <= j < |rows| ==> rows[j] == old(rows)[if j < i then j else j + 1];
      }
    }

    /**
     * The submit check: in `FIJO` mode a blank fixed percentage blocks the
     * submission, in `TRAMOS` mode the absence of a complete visible band
     * does, and any other mode is never blocked.
     */
    method ValidarEnvio(modalidad: string, porcentajeFijo: string) returns (blocked: bool)
      ensures modalidad == "FIJO" ==> (blocked <==> JsTrim(porcentajeFijo) == "")
      ensures modalidad == "TRAMOS" ==> (blocked <==> !HasCompleteTramo())
      ensures modalidad != "FIJO" && modalidad != "TRAMOS" ==> !blocked
    {
      blocked := false;
      if modalidad == "FIJO" {
        if porcentajeFijo == "" || JsTrim(porcentajeFijo) == "" {
          blocked := true;
        }
      } else if modalidad == "TRAMOS" {
        var valido := false;
        var k := 0;
        while k < |rows|
          invariant 0 <= k <= |rows|
          invariant valido <==> exists j :: 0 <= j < k && !rows[j].hidden && Complete(rows[j])
        {
          if !rows[k].hidden {
            var min := JsTrim(rows[k].montoMinimo);
            var por := JsTrim(rows[k].porcentaje);
            if min != "" && por != "" {
              valido := true;
            }
          }
          k := k + 1;
        }
        blocked := !valido;
      }
    }
  }
}
