/**
 * The follow-up page script (static/js/CRM/seguimiento.js): ticking a
 * follow-up action on a case opens a modal asking for its result (and, for a
 * promised payment, the promised date) before the tick is sent; unticking is
 * sent at once.  The CSRF token for those requests is read by `getCookie`
 * from the `;`-separated cookie string (section 4.2.1 of RFC 6265).
 * The request itself (`fetch`) and the page updates after its answer are not
 * part of this model: a request is recorded as an `Update` in the page's
 * outbox.
 */
module FollowUp {
  import opened Wrappers
  import opened Text

  // ------------------------------------------------------------- getCookie

  /** JavaScript's `s.substring(0, n)` for `n >= 0`: at most the first `n` characters. */
  function Substring(s: string, n: nat): (r: string)
    ensures |r| == if n <= |s| then n else |s|
    ensures r == s[..|r|]
  {
    if n <= |s| then s[..n] else s
  }

  /** The trimmed piece starts with `name=`. */
  predicate Names(piece: string, name: string)
  {
    StartsWith(JsTrim(piece), name + "=")
  }

  /** The decoded value of the first piece naming the cookie; later pieces with the same name are ignored. */
  function FirstMatch(pieces: seq<string>, name: string, decode: string -> string): Option<string>
  {
    if pieces == [] then None
    else if Names(pieces[0], name) then Some(decode(JsTrim(pieces[0])[|name| + 1..]))
    else FirstMatch(pieces[1..], name, decode)
  }

  /** What `getCookie(name)` answers for the cookie string `cookie`; `decode` is `decodeURIComponent`. */
  function CookieValue(cookie: string, name: string, decode: string -> string): Option<string>
  {
    if cookie == "" then None else FirstMatch(Split(cookie, ';'), name, decode)
  }

  /** `getCookie(name)`: scans the pieces in order and stops at the first one naming the cookie. */
  method GetCookie(cookie: string, name: string, decode: string -> string) returns (value: Option<string>)
    ensures value == CookieValue(cookie, name, decode)
  {
    value := None;
    if cookie != "" {
      var cookies := Split(cookie, ';');
      var i := 0;
      while i < |cookies|
        invariant 0 <= i <= |cookies|
        invariant value == None
        invariant FirstMatch(cookies, name, decode) == FirstMatch(cookies[i..], name, decode)
      {
        var piece := JsTrim(cookies[i]);
        if Substring(piece, |name| + 1) == name + "=" {
          value := Some(decode(piece[|name| + 1..]));
          break;
        }
        assert cookies[i..][1..] == cookies[i + 1..];
        i := i + 1;
      }
    }
  }

  /** The first piece naming the cookie decides, wherever the list is cut. */
  lemma {:induction false} FirstMatchAppend(p: seq<string>, q: seq<string>, name: string, decode: string -> string)
    ensures FirstMatch(p + q, name, decode)
         == if FirstMatch(p, name, decode).Some? then FirstMatch(p, name, decode) else FirstMatch(q, name, decode)
  {
    if p == [] {
      assert p + q == q;
    } else {
      assert (p + q)[0] == p[0];
      assert (p + q)[1..] == p[1..] + q;
      FirstMatchAppend(p[1..], q, name, decode);
    }
  }

  /**
   * A cookie string made of two parts: the first part's answer wins, and the
   * second part is consulted only when the first holds no such cookie.
   */
  lemma CookieValueJoin(a: string, b: string, name: string, decode: string -> string)
    ensures CookieValue(a + ";" + b, name, decode)
         == if CookieValue(a, name, decode).Some? then CookieValue(a, name, decode) else CookieValue(b, name, decode)
  {
    var pa, pb := Split(a, ';'), Split(b, ';');
    SplitConcat(a, b, ';');
    assert a + ";" + b == a + [';'] + b;
    assert a + ";" + b != "";
    FirstMatchAppend(pa, pb, name, decode);
    assert FirstMatch(Split(a + ";" + b, ';'), name, decode)
        == if FirstMatch(pa, name, decode).Some? then FirstMatch(pa, name, decode) else FirstMatch(pb, name, decode);
    if a == "" {
      EmptyCookie(name, decode);
    }
    if b == "" {
      EmptyCookie(name, decode);
    }
  }

  /** The empty cookie string splits into one empty piece, which names no cookie. */
  lemma EmptyCookie(name: string, decode: string -> string)
    ensures FirstMatch(Split("", ';'), name, decode) == None
  {
    assert Split("", ';') == [""];
    assert !Names("", name);
    assert [""][1..] == [];
  }

  /**
   * A single `name=value` pair, with any whitespace around it, yields the
   * decoded value in full, further `=` characters included.
   */
  lemma CookiePair(pre: string, name: string, v: string, post: string, decode: string -> string)
    requires AllSpace(pre, JsSpaces) && AllSpace(post, JsSpaces)
    requires ';' !in name && ';' !in v
    requires name == [] || !IsJsSpace(name[0])
    requires v == [] || !IsJsSpace(v[|v| - 1])
    ensures CookieValue(pre + name + "=" + v + post, name, decode) == Some(decode(v))
  {
    var core := name + "=" + v;
    var s := pre + core + post;
    assert s == pre + name + "=" + v + post;
    assert ';' !in core;
    assert forall i :: 0 <= i < |pre| ==> pre[i] != ';';
    assert forall i :: 0 <= i < |post| ==> post[i] != ';';
    assert ';' !in s;
    SplitNoSep(s, ';');
    assert !IsJsSpace(core[0]) by {
      if name == [] { assert core[0] == '='; } else { assert core[0] == name[0]; }
    }
    assert !IsJsSpace(core[|core| - 1]) by {
      if v == [] { assert core[|core| - 1] == '='; } else { assert core[|core| - 1] == v[|v| - 1]; }
    }
    TrimUnique(pre, core, post, JsSpaces);
    assert core[..|name| + 1] == name + "=";
    assert core[|name| + 1..] == v;
    assert Split(s, ';')[0] == s;
  }

  /**
   * A cookie whose name merely begins with the wanted name (`csrftokenX=`)
   * does not match: `=` must follow the name immediately.
   */
  lemma LongerNameNoMatch(name: string, c: char, rest: string, decode: string -> string)
    requires name != [] && !IsJsSpace(name[0])
    requires c != '=' && c != ';' && ';' !in name && ';' !in rest
    ensures CookieValue(name + [c] + rest, name, decode) == None
  {
    var s := name + [c] + rest;
    assert ';' !in s;
    SplitNoSep(s, ';');
    assert s[0] == name[0];
    assert TrimStart(s, JsSpaces) == s;
    TrimEndPrefix(s, JsSpaces);
    var t := JsTrim(s);
    assert t == s[..|t|];
    assert |t| > |name| ==> t[|name|] == s[|name|] == c;
    assert !Names(s, name);
    var pieces: seq<string> := [s];
    assert Split(s, ';') == pieces && pieces[1..] == [];
    assert FirstMatch(pieces[1..], name, decode) == None;
    assert FirstMatch(pieces, name, decode) == None;
    assert s != "";
  }

  // ------------------------------------------------------------- ticks

  /** A follow-up checkbox in the cases table. */
  class Checkbox {
    var checked: bool

    constructor(checked: bool)
      ensures this.checked == checked
    {
      this.checked := checked;
    }
  }

  /** The body of one `enviarActualizacion` request. */
  datatype Update = Update(
    expedienteId: Option<int>,
    tipoAccion: Option<string>,
    valor: bool,
    nuevoEstado: Option<string>,
    fechaPromesa: Option<string>)

  /** The warnings `confirmarEstadoTick` shows instead of sending. */
  datatype Warning = ChooseResult | GivePromiseDate

  /** The result value that asks for a promised payment date. */
  const Pagara := "PAGARA"

  /** What `confirmarEstadoTick` does with the modal's result and promised date. */
  datatype Decision = Refuse(warning: Warning) | Send

  /** The two guards of `confirmarEstadoTick`, in their order. */
  function ConfirmDecision(estado: string, fechaPromesa: string): (d: Decision)
    ensures d == Send <==> estado != "" && (estado == Pagara ==> fechaPromesa != "")
    ensures d == Refuse(ChooseResult) <==> estado == ""
  {
    if estado == "" then Refuse(ChooseResult)
    else if estado == Pagara && fechaPromesa == "" then Refuse(GivePromiseDate)
    else Send
  }

  /**
   * The module-level variables of the script and the parts of the page it
   * drives: the result modal (its select, the promised-date block and input)
   * and the requests and warnings it has produced.
   */
  class TickPage {
    var tickActual: Checkbox?
    var expedienteIdActual: Option<int>
    var accionActual: Option<string>
    var selectEstado: string
    var fechaPromesaHidden: bool
    var fechaPromesa: string
    var modalShown: bool
    var modalCreated: bool
    var sent: seq<Update>
    var warnings: seq<Warning>

    /** The promised-date block is shown exactly for a promised payment, and a hidden date is empty. */
    predicate Valid()
      reads this
    {
      && (fechaPromesaHidden <==> selectEstado != Pagara)
      && (fechaPromesaHidden ==> fechaPromesa == "")
      && (modalShown ==> modalCreated)
    }

    constructor()
      ensures Valid()
      ensures tickActual == null && expedienteIdActual == None && accionActual == None
      ensures !modalShown && !modalCreated && sent == [] && warnings == []
    {
      tickActual := null;
      expedienteIdActual := None;
      accionActual := None;
      selectEstado := "";
      fechaPromesaHidden := true;
      fechaPromesa := "";
      modalShown := false;
      modalCreated := false;
      sent := [];
      warnings := [];
    }

    /**
     * `manejarTick(checkbox, expId, tipoAccion)`, run after the browser has
     * flipped the checkbox: a new tick is remembered and the reset modal
     * opens; an untick is sent at once as `valor: false` and leaves the
     * remembered tick alone.
     */
    method ManejarTick(checkbox: Checkbox, expId: int, tipoAccion: string)
      requires Valid()
      modifies this
      ensures Valid()
      ensures warnings == old(warnings)
      ensures checkbox.checked ==>
        && tickActual == checkbox && expedienteIdActual == Some(expId) && accionActual == Some(tipoAccion)
        && selectEstado == "" && fechaPromesaHidden && fechaPromesa == ""
        && modalShown && modalCreated && sent == old(sent)
      ensures !checkbox.checked ==>
        && sent == old(sent) + [Update(Some(expId), Some(tipoAccion), false, None, None)]
        && tickActual == old(tickActual) && expedienteIdActual == old(expedienteIdActual)
        && accionActual == old(accionActual) && selectEstado == old(selectEstado)
        && fechaPromesaHidden == old(fechaPromesaHidden) && fechaPromesa == old(fechaPromesa)
        && modalShown == old(modalShown) && modalCreated == old(modalCreated)
    {
      if checkbox.checked {
        tickActual := checkbox;
        expedienteIdActual := Some(expId);
        accionActual := Some(tipoAccion);
        selectEstado := "";
        fechaPromesaHidden := true;
        fechaPromesa := "";
        modalCreated := true;
        modalShown := true;
      } else {
        sent := sent + [Update(Some(expId), Some(tipoAccion), false, None, None)];
      }
    }

    /**
     * The user picks a result in the modal, and the select's change handler
     * runs: a promised payment shows the date block, anything else hides it
     * and clears the date.
     */
    method SelectEstado(value: string)
      requires Valid()
      modifies this
      ensures Valid()
      ensures selectEstado == value
      ensures fechaPromesaHidden == (value != Pagara)
      ensures fechaPromesa == if value == Pagara then old(fechaPromesa) else ""
      ensures tickActual == old(tickActual) && expedienteIdActual == old(expedienteIdActual)
      ensures accionActual == old(accionActual) && sent == old(sent) && warnings == old(warnings)
      ensures modalShown == old(modalShown) && modalCreated == old(modalCreated)
    {
      selectEstado := value;
      if value == Pagara {
        fechaPromesaHidden := false;
      } else {
        fechaPromesaHidden := true;
        fechaPromesa := "";
      }
    }

    /** The user types a promised date into the visible date input. */
    method EnterFechaPromesa(value: string)
      requires Valid() && !fechaPromesaHidden
      modifies this`fechaPromesa
      ensures Valid() && fechaPromesa == value
    {
      fechaPromesa := value;
    }

    /**
     * `confirmarEstadoTick()`: a refused confirmation only warns; an accepted
     * one closes the modal and sends `valor: true` with the chosen result
     * and the date input's text for the remembered case and action.  When no
     * modal was ever created, `getInstance` gives null and the call fails
     * before sending; `crashed` reports that.
     */
    method ConfirmarEstadoTick() returns (crashed: bool)
      requires Valid()
      modifies this
      ensures Valid()
      ensures tickActual == old(tickActual) && expedienteIdActual == old(expedienteIdActual)
      ensures accionActual == old(accionActual) && selectEstado == old(selectEstado)
      ensures fechaPromesaHidden == old(fechaPromesaHidden) && fechaPromesa == old(fechaPromesa)
      ensures modalCreated == old(modalCreated)
      ensures match ConfirmDecision(selectEstado, fechaPromesa)
        case Refuse(w) =>
          !crashed && warnings == old(warnings) + [w] && sent == old(sent) && modalShown == old(modalShown)
        case Send =>
          && warnings == old(warnings)
          && crashed == !modalCreated
          && (crashed ==> sent == old(sent) && modalShown == old(modalShown))
          && (!crashed ==>
                && !modalShown
                && sent == old(sent) + [Update(expedienteIdActual, accionActual, true,
                                               Some(selectEstado), Some(fechaPromesa))])
    {
      crashed := false;
      match ConfirmDecision(selectEstado, fechaPromesa)
      case Refuse(w) =>
        warnings := warnings + [w];
      case Send =>
        if !modalCreated {
          crashed := true;
        } else {
          modalShown := false;
          sent := sent + [Update(expedienteIdActual, accionActual, true, Some(selectEstado), Some(fechaPromesa))];
        }
    }

    /** `cancelarEstadoTick()`: the remembered checkbox, if any, is unticked. */
    method CancelarEstadoTick()
      requires Valid()
      modifies this, tickActual
      ensures Valid()
      ensures tickActual == old(tickActual)
      ensures tickActual != null ==> !tickActual.checked
      ensures expedienteIdActual == old(expedienteIdActual) && accionActual == old(accionActual)
      ensures selectEstado == old(selectEstado) && fechaPromesa == old(fechaPromesa)
      ensures fechaPromesaHidden == old(fechaPromesaHidden)
      ensures sent == old(sent) && warnings == old(warnings)
      ensures modalShown == old(modalShown) && modalCreated == old(modalCreated)
    {
      if tickActual != null {
        tickActual.checked := false;
      }
    }
  }

  /**
   * On a page in a consistent state, a confirmed result other than a
   * promised payment is sent with an empty date, and a promised payment is
   * sent only with a date.
   */
  lemma SentDateMatchesResult(estado: string, fecha: string, hidden: bool)
    requires hidden <==> estado != Pagara
    requires hidden ==> fecha == ""
    requires ConfirmDecision(estado, fecha) == Send
    ensures estado != ""
    ensures estado != Pagara ==> fecha == ""
    ensures estado == Pagara ==> fecha != ""
  {
  }
}
