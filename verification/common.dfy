/** Shared vocabulary of the pharmacy backend model: identifiers, dates,
    optional values, results and error kinds, the `Array.prototype.find`
    search, element-wise casting of sub-documents, and the whitespace
    trimming that Mongoose applies to every `trim: true` string field. */
module Common {

  /** Database references. Mongo ObjectIds are opaque; naturals suffice. */
  type MedId = nat
  type ProvId = nat
  type UserId = nat
  type SolId = nat

  /** A point in time, in milliseconds since the epoch. */
  type Date = int

  datatype Option<T> = None | Some(value: T) {
    /** The value, or `default` when absent (the `x || d` and schema-default idioms). */
    function GetOr(default: T): T {
      match this
      case Some(v) => v
      case None => default
    }
  }

  /** The failures the core raises. The source throws plain `Error`s with
      Spanish messages; each constructor names one of those throw sites. */
  datatype Error =
    | MissingFields                     // "Datos incompletos: ..."
    | UnknownSupplier                   // "ID de proveedor no válido"
    | ExpiredBatch                      // "No se puede ingresar un lote vencido"
    | MedicationNotFound                // "Medicamento no encontrado", or a null medication dereferenced
    | EmptyItems                        // "Debe enviar al menos un item"
    | InvalidStatus                     // "Estado inválido"
    | RequestNotFound                   // "Solicitud no encontrada"
    | BelowThreshold(medicamentoId: MedId)    // "No se puede entregar ...: stock mínimo"
    | InsufficientStock(medicamentoId: MedId) // "No hay stock suficiente para ..."
    | ValidationFailed                  // a schema validator rejected the document
    | DuplicateKey                      // a unique index rejected the insert
    | Unauthenticated                   // controller: no user on the request
    | MissingMedicationRef              // controller: "Cada item debe tener un medicamentoId"
    | NonPositiveQuantity               // controller: "Cantidad debe ser mayor a 0"
    | NotApproved                       // controller: "Solo se pueden entregar solicitudes aprobadas"

  datatype Result<T> = Ok(value: T) | Err(error: Error)

  /** A string argument JavaScript treats as absent: undefined or empty. */
  predicate MissingText(o: Option<string>) {
    o.None? || o.value == ""
  }

  /** A numeric argument JavaScript treats as absent: undefined or zero. */
  predicate MissingNumber(o: Option<int>) {
    o.None? || o.value == 0
  }

  /** First index whose element satisfies `p`, as `Array.prototype.find` scans. */
  function FindIndex<T>(s: seq<T>, p: T -> bool): (r: Option<nat>)
    ensures r.Some? ==> r.value < |s| && p(s[r.value])
    ensures r.Some? ==> forall j :: 0 <= j < r.value ==> !p(s[j])
    ensures r.None? <==> forall j :: 0 <= j < |s| ==> !p(s[j])
  {
    if s == [] then None
    else if p(s[0]) then Some(0)
    else
      match FindIndex(s[1..], p)
      case None => None
      case Some(k) => Some(k + 1)
  }

  /** Casts every sub-document of an array; the array is accepted only when
      every element is. */
  function CastAll<D, T>(ds: seq<D>, cast: D -> Result<T>): (r: Result<seq<T>>)
    ensures r.Ok? <==> forall i :: 0 <= i < |ds| ==> cast(ds[i]).Ok?
    ensures r.Ok? ==> |r.value| == |ds|
    ensures r.Ok? ==> forall i :: 0 <= i < |ds| ==> r.value[i] == cast(ds[i]).value
  {
    if ds == [] then Ok([])
    else
      match cast(ds[0])
      case Err(e) => Err(e)
      case Ok(t) =>
        match CastAll(ds[1..], cast)
        case Err(e) => Err(e)
        case Ok(ts) => Ok([t] + ts)
  }

  /** The characters `String.prototype.trim` removes: ECMAScript white space
      (TAB, VT, FF, SP, NBSP, ZWNBSP and the Zs category) and line terminators. */
  predicate IsWhitespace(c: char) {
    var n := c as int;
    || n == 0x09 || n == 0x0A || n == 0x0B || n == 0x0C || n == 0x0D
    || n == 0x20 || n == 0xA0 || n == 0x1680 || 0x2000 <= n <= 0x200A
    || n == 0x2028 || n == 0x2029 || n == 0x202F || n == 0x205F
    || n == 0x3000 || n == 0xFEFF
  }

  function TrimStart(s: string): (r: string)
    ensures |r| <= |s| && r == s[|s| - |r|..]
    ensures r == [] || !IsWhitespace(r[0])
    ensures forall i :: 0 <= i < |s| - |r| ==> IsWhitespace(s[i])
  {
    if s != [] && IsWhitespace(s[0]) then TrimStart(s[1..]) else s
  }

  function TrimEnd(s: string): (r: string)
    ensures |r| <= |s| && r == s[..|r|]
    ensures r == [] || !IsWhitespace(r[|r| - 1])
    ensures forall i :: |r| <= i < |s| ==> IsWhitespace(s[i])
  {
    if s != [] && IsWhitespace(s[|s| - 1]) then TrimEnd(s[..|s| - 1]) else s
  }

  /** `String.prototype.trim`: the longest infix of `s` that neither starts
      nor ends with white space; empty exactly when `s` is all white space. */
  function Trim(s: string): (r: string)
    ensures r == [] || (!IsWhitespace(r[0]) && !IsWhitespace(r[|r| - 1]))
    ensures r == [] <==> forall i :: 0 <= i < |s| ==> IsWhitespace(s[i])
    ensures |r| <= |s|
  {
    TrimBlank(s);
    TrimEnd(TrimStart(s))
  }

  /** What `trim` returns, stated without reference to how it is computed:
      an infix of `s` that neither starts nor ends with white space, and
      everything cut from either end of `s` is white space. */
  lemma {:induction false} TrimCutsOnlyBlanks(s: string)
    ensures var r := Trim(s);
      && (r == [] || (!IsWhitespace(r[0]) && !IsWhitespace(r[|r| - 1])))
      && exists i ::
           && 0 <= i <= |s| - |r| && r == s[i..][..|r|]
           && (forall k :: 0 <= k < i ==> IsWhitespace(s[k]))
           && (forall k :: i + |r| <= k < |s| ==> IsWhitespace(s[k]))
  {
    TrimInfix(s);
  }

  lemma {:induction false} TrimBlank(s: string)
    ensures var t := TrimStart(s);
      var r := TrimEnd(t);
      && (r != [] ==> r[0] == t[0])
      && (r == [] <==> forall i :: 0 <= i < |s| ==> IsWhitespace(s[i]))
  {
    var t := TrimStart(s);
    var r := TrimEnd(t);
    // a non-empty `t` starts with a non-blank character that `TrimEnd` keeps
    assert t != [] ==> r != [];
  }

  /** The trimmed string is the infix left after cutting the leading blanks
      `TrimStart` drops and the trailing blanks `TrimEnd` drops. */
  lemma {:induction false} TrimInfix(s: string)
    ensures var t := TrimStart(s);
      var r := TrimEnd(t);
      && r == s[|s| - |t|..][..|r|]
      && (forall k :: |s| - |t| + |r| <= k < |s| ==> IsWhitespace(s[k]))
  {
    var t := TrimStart(s);
    var r := TrimEnd(t);
    var i := |s| - |t|;
    assert t == s[i..];
    assert r == t[..|r|];
    forall k | i + |r| <= k < |s|
      ensures IsWhitespace(s[k])
    {
      assert s[k] == t[k - i];
      assert |r| <= k - i < |t|;
    }
  }

  /** Trimming a string that has no white space at either end returns it unchanged. */
  lemma {:induction false} TrimOfTrimmed(s: string)
    requires s == [] || (!IsWhitespace(s[0]) && !IsWhitespace(s[|s| - 1]))
    ensures Trim(s) == s
  {
    if s != [] {
      assert TrimStart(s) == s;
      assert TrimEnd(s) == s;
    }
  }

  /** Trimming twice is trimming once: re-running the setter on a stored,
      already-trimmed value changes nothing. */
  lemma TrimIdempotent(s: string)
    ensures Trim(Trim(s)) == Trim(s)
  {
    TrimOfTrimmed(Trim(s));
  }

  /** The `trim: true` setter applied to an optional string field. */
  function TrimOpt(o: Option<string>): (r: Option<string>)
    ensures r.Some? <==> o.Some?
    ensures r.Some? ==> r.value == Trim(o.value)
  {
    match o
    case None => None
    case Some(v) => Some(Trim(v))
  }
}
