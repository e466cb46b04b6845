/**
 * The "new transaction" form: income or expense, date, category, description and amount.
 * It validates on submit (a category must be chosen and the amount must parse to a
 * non-zero number), then updates the transaction being edited or inserts a new one.
 *
 * `parseFloat` is a parameter from the normalised amount text to a value in cents (None
 * for NaN); the pt-BR formatting of an edited amount is a parameter too.
 */
module NovoLancamento {
  import opened Wrappers
  import opened Text
  import opened Categories

  /** Turning the first ',' into a '.' moves one occurrence from ',' to '.'. */
  lemma ReplaceFirstCommaCounts(s: string)
    requires ',' in s
    ensures forall c :: Count(ReplaceFirst(s, ',', '.'), c) == Count(s, c) - (if c == ',' then 1 else 0) + (if c == '.' then 1 else 0)
  {
    var k := IndexOf(s, ',');
    var r := ReplaceFirst(s, ',', '.');
    assert s == s[..k] + [','] + s[k + 1..];
    assert r == s[..k] + ['.'] + s[k + 1..];
    forall c ensures Count(r, c) == Count(s, c) - (if c == ',' then 1 else 0) + (if c == '.' then 1 else 0) {
      CountAppend(s[..k] + [','], s[k + 1..], c);
      CountAppend(s[..k], [','], c);
      CountAppend(s[..k] + ['.'], s[k + 1..], c);
      CountAppend(s[..k], ['.'], c);
    }
  }

  /**
   * `String(valor).replace(/\./g, '').replace(',', '.')`: every '.' removed (in order, see
   * `RemoveAllAppend`), then only the first ',' made a '.' and everything else kept in place.
   */
  function NormalizeAmount(valor: string): (r: string)
    ensures var noDots := RemoveAll(valor, '.');
      && |r| == |noDots| == |valor| - Count(valor, '.')
      && (',' in noDots <==> ',' in valor)
      && (',' in noDots ==> r[IndexOf(noDots, ',')] == '.')
      && forall i :: 0 <= i < |r| && (',' !in noDots || i != IndexOf(noDots, ',')) ==> r[i] == noDots[i]
  {
    ReplaceFirst(RemoveAll(valor, '.'), ',', '.')
  }

  /** The normalised amount has at most one '.', one ',' fewer than the input when it had any, and every other character as often as the input. */
  lemma NormalizeAmountCounts(valor: string)
    ensures var r := NormalizeAmount(valor);
      && Count(r, '.') == (if ',' in valor then 1 else 0)
      && Count(r, ',') == (if ',' in valor then Count(valor, ',') - 1 else 0)
      && forall c :: c != '.' && c != ',' ==> Count(r, c) == Count(valor, c)
  {
    var noDots := RemoveAll(valor, '.');
    if ',' in noDots {
      ReplaceFirstCommaCounts(noDots);
    }
  }

  /**
   * Only the first ',' becomes a decimal point here, while the reminder editor turns every
   * ',' into one: "1,2,3" normalises to "1.2,3".
   */
  lemma NormalizeKeepsLaterCommas()
    ensures NormalizeAmount("1,2,3") == "1.2,3"
  {
    var s := "1,2,3";
    RemoveAllAbsent(s, '.');
    assert s[0] != ',' && s[1] == ',';
    assert s[1..][0] == ',';
    assert IndexOf(s, ',') == 1;
    assert s[..1] + ['.'] + s[2..] == "1.2,3";
  }

  /**
   * A pt-BR amount with a thousands separator, such as "1.234,56" (`a` = "1", `m` = "234",
   * `t` = "56"), becomes "1234.56": the '.' is dropped, the ',' becomes the decimal point,
   * and everything else keeps its order.
   */
  lemma ThousandsSeparatorDropped(a: char, m: string, t: string)
    requires a != '.' && a != ',' && '.' !in m && ',' !in m && '.' !in t
    ensures NormalizeAmount([a, '.'] + m + [','] + t) == [a] + m + ['.'] + t
  {
    var valor, noDots := [a, '.'] + m + [','] + t, [a] + m + [','] + t;
    assert RemoveAll(valor, '.') == noDots by {
      assert valor == [a, '.'] + (m + [','] + t);
      DropDots(a, m + [','] + t);
      assert [a] + (m + [','] + t) == noDots;
    }
    assert ReplaceFirst(noDots, ',', '.') == [a] + m + ['.'] + t by {
      FirstCommaAfter([a] + m, t);
      assert noDots == ([a] + m) + [','] + t;
    }
  }

  /** Only the '.' of `[a, '.'] + rest` is removed when nothing else is a '.'. */
  lemma DropDots(a: char, rest: string)
    requires a != '.' && '.' !in rest
    ensures RemoveAll([a, '.'] + rest, '.') == [a] + rest
  {
    assert ([a, '.'] + rest)[1..] == ['.'] + rest;
    assert (['.'] + rest)[1..] == rest;
    RemoveAllAbsent(rest, '.');
  }

  /** When `pre` has no ',', the ',' right after it is the one that becomes '.'. */
  lemma FirstCommaAfter(pre: string, rest: string)
    requires ',' !in pre
    ensures IndexOf(pre + [','] + rest, ',') == |pre|
    ensures ReplaceFirst(pre + [','] + rest, ',', '.') == pre + ['.'] + rest
  {
    var s := pre + [','] + rest;
    assert s[|pre|] == ',';
    assert s[..|pre|] == pre;
    assert s[..|pre| + 1] == pre + [','];
    assert s[|pre| + 1..] == rest;
  }

  /** Removing a character that does not occur changes nothing. */
  lemma {:induction false} RemoveAllAbsent(s: string, x: char)
    requires x !in s
    ensures RemoveAll(s, x) == s
  {
    if s != [] {
      assert x !in s[1..];
      RemoveAllAbsent(s[1..], x);
      assert s == [s[0]] + s[1..];
    }
  }

  /** Which error messages `handleSubmit` records. */
  datatype Errors = Errors(categoria: bool, valor: bool) {
    /** `Object.keys(newErrors).length > 0`. */
    predicate Any() { categoria || valor }
  }

  /** The validation of `handleSubmit`. */
  function Validate(categoria: string, valor: string, parseFloat: string -> Option<int>): (e: Errors)
    ensures e.categoria <==> categoria == ""
    ensures e.valor <==> valor == "" || parseFloat(NormalizeAmount(valor)).None? || parseFloat(NormalizeAmount(valor)) == Some(0)
  {
    var amount := parseFloat(NormalizeAmount(valor));
    Errors(categoria == "", valor == "" || amount.None? || amount == Some(0))
  }

  /** The row written on submit. */
  datatype Payload = Payload(categoryId: Option<string>, kind: Kind, description: Option<string>, amount: int, occurredOn: string)

  /** What a submit leads to. */
  datatype SubmitOutcome =
    | Blocked(errors: Errors)   // errors shown, nothing written
    | NoUser                    // no signed-in user: nothing written
    | Update(id: string, row: Payload)
    | Insert(row: Payload)

  /** The transaction being edited; absent text fields are the empty string. */
  datatype EditTx = EditTx(id: string, description: string, amount: int, kind: Kind, categoryId: string, occurredOn: string)

  /** The form's own state. */
  datatype Fields = Fields(tipo: Kind, data: string, categoria: string, descricao: string, valor: string)

  /**
   * `handleSubmit`: validate, stop on any error, then build the row (`categoria || null`,
   * `descricao || null`, the parsed amount) and update the edited transaction or insert.
   */
  function SubmitDecision(f: Fields, editTx: Option<EditTx>, signedIn: bool, parseFloat: string -> Option<int>): (o: SubmitOutcome)
    ensures o.Blocked? <==> Validate(f.categoria, f.valor, parseFloat).Any()
    ensures o.Blocked? ==> o.errors == Validate(f.categoria, f.valor, parseFloat)
    ensures o.NoUser? <==> !Validate(f.categoria, f.valor, parseFloat).Any() && !signedIn
    ensures o.Update? <==> !Validate(f.categoria, f.valor, parseFloat).Any() && signedIn && editTx.Some?
    ensures o.Insert? <==> !Validate(f.categoria, f.valor, parseFloat).Any() && signedIn && editTx.None?
    ensures o.Update? ==> o.id == editTx.value.id
    ensures o.Update? || o.Insert? ==>
      && o.row.categoryId == Some(f.categoria) && f.categoria != ""
      && o.row.kind == f.tipo && o.row.occurredOn == f.data
      && (o.row.description.None? <==> f.descricao == "")
      && (o.row.description.Some? ==> o.row.description.value == f.descricao)
      && o.row.amount != 0 && parseFloat(NormalizeAmount(f.valor)) == Some(o.row.amount)
  {
    var errors := Validate(f.categoria, f.valor, parseFloat);
    if errors.Any() then Blocked(errors)
    else if !signedIn then NoUser
    else
      var amount := parseFloat(NormalizeAmount(f.valor));
      var row := Payload(if f.categoria == "" then None else Some(f.categoria), f.tipo,
                         if f.descricao == "" then None else Some(f.descricao),
                         if amount.None? then 0 else amount.value, f.data);
      if editTx.Some? then Update(editTx.value.id, row) else Insert(row)
  }

  /** `disabled={!categoria || !valor}`. */
  predicate SubmitDisabled(f: Fields) {
    f.categoria == "" || f.valor == ""
  }

  /** A disabled button only hides submits that validation would block anyway. */
  lemma DisabledMeansBlocked(f: Fields, editTx: Option<EditTx>, signedIn: bool, parseFloat: string -> Option<int>)
    requires SubmitDisabled(f)
    ensures SubmitDecision(f, editTx, signedIn, parseFloat).Blocked?
  {
  }

  // ---------------------------------------------------------------- effects

  /** The state before any effect runs: an income, dated today, everything else empty. */
  function Initial(today: string): (f: Fields)
    ensures f.tipo == Entrada && f.data == today && f.categoria == "" && f.descricao == "" && f.valor == ""
  {
    Fields(Entrada, today, "", "", "")
  }

  /** The `[editTx]` effect: copy the edited transaction into the form (`formatted` is its amount in pt-BR). */
  function EditTxEffect(f: Fields, editTx: Option<EditTx>, formatted: string): (g: Fields)
    ensures editTx.None? ==> g == f
    ensures editTx.Some? ==> g == Fields(editTx.value.kind, editTx.value.occurredOn, editTx.value.categoryId, editTx.value.description, formatted)
  {
    match editTx
    case None => f
    case Some(tx) => Fields(tx.kind, tx.occurredOn, tx.categoryId, tx.description, formatted)
  }

  /** The `[tipoTransacao]` effect: clear the category. */
  function TipoEffect(f: Fields): (g: Fields)
    ensures g == f.(categoria := "")
  {
    f.(categoria := "")
  }

  /**
   * Mounting as written: effects run in declaration order, so the type effect runs right
   * after the edit effect (and again on the next render when the type changed).
   */
  function MountAsWritten(today: string, editTx: Option<EditTx>, formatted: string): Fields {
    TipoEffect(TipoEffect(EditTxEffect(Initial(today), editTx, formatted)))
  }

  /** As written, an edited transaction always opens with no category selected. */
  lemma MountDropsEditedCategory(today: string, tx: EditTx, formatted: string)
    requires tx.categoryId != ""
    ensures MountAsWritten(today, Some(tx), formatted).categoria == ""
    ensures MountAsWritten(today, Some(tx), formatted).categoria != tx.categoryId
  {
  }

  /**
   * Mounting as intended: the type effect clears the category only when the user changes
   * the type, so the edited transaction's category survives the mount.
   */
  function Mount(today: string, editTx: Option<EditTx>, formatted: string): (f: Fields)
    ensures editTx.Some? ==> f.categoria == editTx.value.categoryId && f.tipo == editTx.value.kind
    ensures editTx.None? ==> f == Initial(today)
    ensures f.(categoria := "") == MountAsWritten(today, editTx, formatted)
  {
    EditTxEffect(Initial(today), editTx, formatted)
  }

  // ---------------------------------------------------------------- the component

  class Form {
    var categorias: seq<Category>
    var fields: Fields
    var errors: Errors

    /** The form once mounted (as written) and once `loadCategorias` has stored the user's categories. */
    constructor (today: string, loaded: seq<Category>, editTx: Option<EditTx>, formatted: string)
      ensures categorias == loaded && fields == MountAsWritten(today, editTx, formatted)
      ensures errors == Errors(false, false)
    {
      categorias := loaded;
      fields := MountAsWritten(today, editTx, formatted);
      errors := Errors(false, false);
    }

    /** `categoriasFiltradas`: the categories of the current type, in loaded order. */
    function Offered(): (r: seq<Category>)
      reads this
      ensures forall c :: c in r <==> c in categorias && c.kind == fields.tipo
    {
      OfKind(categorias, fields.tipo)
    }

    /**
     * Picking a type: a new type runs the type effect and clears the category; picking the
     * current type again changes nothing.
     */
    method SetTipo(tipo: Kind)
      modifies this
      ensures tipo != old(fields).tipo ==> fields == old(fields).(tipo := tipo, categoria := "")
      ensures tipo == old(fields).tipo ==> fields == old(fields)
      ensures categorias == old(categorias) && errors == old(errors)
    {
      if tipo != fields.tipo {
        fields := TipoEffect(fields.(tipo := tipo));
      }
    }

    /**
     * `handleSubmit`: record the errors, then return what is written (nothing when blocked
     * or when there is no user).
     */
    method HandleSubmit(editTx: Option<EditTx>, signedIn: bool, parseFloat: string -> Option<int>) returns (outcome: SubmitOutcome)
      modifies this
      ensures errors == Validate(old(fields).categoria, old(fields).valor, parseFloat)
      ensures outcome == SubmitDecision(old(fields), editTx, signedIn, parseFloat)
      ensures fields == old(fields) && categorias == old(categorias)
    {
      errors := Validate(fields.categoria, fields.valor, parseFloat);
      outcome := SubmitDecision(fields, editTx, signedIn, parseFloat);
    }
  }

  /** After a type change only categories of the new type are offered, and none is selected. */
  lemma TypeChangeOffersOnlyNewType(categorias: seq<Category>, f: Fields, tipo: Kind)
    requires tipo != f.tipo
    ensures forall c :: c in OfKind(categorias, tipo) ==> c.kind == tipo && c !in OfKind(categorias, f.tipo)
    ensures TipoEffect(f.(tipo := tipo)).categoria == ""
  {
  }
}
