/**
 * The `post_save` handler on `Empresa` (crm/signals.py): a newly created
 * company gets its CRM settings row, with `tiene_cedidos` set when its
 * comma-separated product list names SEQURA_MANUAL.
 */
module CrmSignals {
  import opened Wrappers
  import opened Text
  import opened Companies
  import opened Cases

  const SequraManualCode := "SEQURA_MANUAL"

  /** Each piece stripped, in order. */
  function StripAll(pieces: seq<string>): (r: seq<string>)
    ensures |r| == |pieces|
    ensures forall i :: 0 <= i < |pieces| ==> r[i] == PyStrip(pieces[i])
  {
    if pieces == [] then [] else [PyStrip(pieces[0])] + StripAll(pieces[1..])
  }

  /** `[m.strip() for m in tipos_impagos.split(',')]`. */
  function Metodos(tiposImpagos: string): (metodos: seq<string>)
    ensures |metodos| == |Split(tiposImpagos, ',')|
    ensures forall i :: 0 <= i < |metodos| ==> metodos[i] == PyStrip(Split(tiposImpagos, ',')[i])
  {
    StripAll(Split(tiposImpagos, ','))
  }

  /** Stripping distributes over concatenation of piece lists. */
  lemma {:induction false} StripAllConcat(p: seq<string>, q: seq<string>)
    ensures StripAll(p + q) == StripAll(p) + StripAll(q)
  {
    if p == [] {
      assert p + q == q;
    } else {
      assert (p + q)[1..] == p[1..] + q;
      StripAllConcat(p[1..], q);
    }
  }

  /** `'SEQURA_MANUAL' in metodos`. */
  predicate TieneCedidos(tiposImpagos: string)
  {
    SequraManualCode in Metodos(tiposImpagos)
  }

  /** The decision is exact-token membership: some comma-separated piece strips to SEQURA_MANUAL. */
  lemma TieneCedidosIff(tiposImpagos: string)
    ensures TieneCedidos(tiposImpagos)
        <==> exists p :: p in Split(tiposImpagos, ',') && PyStrip(p) == SequraManualCode
  {
    var pieces, m := Split(tiposImpagos, ','), Metodos(tiposImpagos);
    if SequraManualCode in m {
      var i :| 0 <= i < |m| && m[i] == SequraManualCode;
      assert pieces[i] in pieces && PyStrip(pieces[i]) == SequraManualCode;
    }
    if exists p :: p in pieces && PyStrip(p) == SequraManualCode {
      var p :| p in pieces && PyStrip(p) == SequraManualCode;
      var i :| 0 <= i < |pieces| && pieces[i] == p;
      assert m[i] == SequraManualCode && m[i] in m;
    }
  }

  /** Metodos of a joined list is the metodos of each side, in order. */
  lemma MetodosConcat(a: string, b: string)
    ensures Metodos(a + "," + b) == Metodos(a) + Metodos(b)
  {
    assert a + "," + b == a + [','] + b;
    SplitConcat(a, b, ',');
    StripAllConcat(Split(a, ','), Split(b, ','));
  }

  /** Adding pieces in front keeps a SEQURA_MANUAL piece. */
  lemma TieneCedidosAppend(a: string, b: string)
    requires TieneCedidos(b)
    ensures TieneCedidos(a + "," + b)
  {
    MetodosConcat(a, b);
  }

  /** The order of the pieces does not matter. */
  lemma TieneCedidosSwap(a: string, b: string)
    ensures TieneCedidos(a + "," + b) <==> TieneCedidos(b + "," + a)
  {
    MetodosConcat(a, b);
    MetodosConcat(b, a);
  }

  /** Whitespace around a piece does not matter. */
  lemma TieneCedidosPadded(pre: string, post: string)
    requires AllSpace(pre, PythonSpaces) && AllSpace(post, PythonSpaces)
    ensures TieneCedidos(pre + SequraManualCode + post)
  {
    var s := pre + SequraManualCode + post;
    assert ',' !in s by {
      forall i | 0 <= i < |s| ensures s[i] != ',' {
        if i < |pre| { assert s[i] == pre[i]; }
        else if i < |pre| + |SequraManualCode| { assert s[i] == SequraManualCode[i - |pre|]; }
        else { assert s[i] == post[i - |pre| - |SequraManualCode|]; }
      }
    }
    SplitNoSep(s, ',');
    TrimUnique(pre, SequraManualCode, post, PythonSpaces);
    assert Metodos(s)[0] == SequraManualCode;
  }

  /** A text without commas or surrounding whitespace is a single piece that strips to itself. */
  lemma MetodosSingle(t: string)
    requires ',' !in t
    requires t == [] || (!IsPythonSpace(t[0]) && !IsPythonSpace(t[|t| - 1]))
    ensures Metodos(t) == [t]
  {
    SplitNoSep(t, ',');
    assert [] + t + [] == t;
    TrimUnique([], t, [], PythonSpaces);
    assert StripAll([t]) == [PyStrip(t)];
  }

  /** An empty product list gives no assigned cases. */
  lemma TieneCedidosEmpty()
    ensures !TieneCedidos("")
  {
    MetodosSingle("");
  }

  /** A piece that merely contains the code does not count. */
  lemma TieneCedidosLongerToken()
    ensures !TieneCedidos("SEQURA_MANUAL_X")
  {
    MetodosSingle("SEQURA_MANUAL_X");
  }

  /** Creating a second settings row for one company violates the one-to-one constraint. */
  datatype SignalError = IntegrityError

  /** The `CRMConfig` table, keyed by company. */
  class CrmConfigTable {
    var configs: map<int, CrmConfig>

    ghost predicate Valid()
      reads this
    {
      forall id :: id in configs ==> configs[id].empresaId == id
    }

    constructor ()
      ensures Valid() && configs == map[]
    {
      configs := map[];
    }

    /**
     * `gestionar_crm_empresa`: on creation, exactly one settings row linked to
     * the company, with `tiene_cedidos` from its product list; on a later
     * save, nothing.
     */
    method GestionarCrmEmpresa(empresa: Empresa, created: bool, now: int) returns (r: Option<SignalError>)
      requires Valid()
      modifies this
      ensures Valid()
      ensures !created ==> r == None && configs == old(configs)
      ensures created && empresa.id in old(configs) ==> r == Some(IntegrityError) && configs == old(configs)
      ensures created && empresa.id !in old(configs) ==>
        r == None && configs == old(configs)[empresa.id := CrmConfig(empresa.id, TieneCedidos(empresa.tiposImpagos), now)]
    {
      r := None;
      if created {
        var metodos := Metodos(empresa.tiposImpagos);
        var usaSequraManual := SequraManualCode in metodos;
        if empresa.id in configs {
          r := Some(IntegrityError);
        } else {
          configs := configs[empresa.id := CrmConfig(empresa.id, usaSequraManual, now)];
        }
      }
    }
  }
}
