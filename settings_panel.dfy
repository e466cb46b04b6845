/**
 * The category section of the settings panel: the loaded categories split into income and
 * expense lists, an inline editor for one category at a time, removal, and one "add" form
 * per type. Each handler first writes to the backend; the model describes the local state
 * after that write succeeds.
 */
module SettingsPanel {
  import opened Wrappers
  import opened Text
  import opened Categories

  const DefaultEntradaColor := "#3ecf8e"
  const DefaultSaidaColor := "#FF7F6A"

  /** `prev.map(c => c.id === id ? { ...c, name, color } : c)`. */
  function RenameWhere(cs: seq<Category>, id: string, name: string, color: string): (r: seq<Category>)
    ensures |r| == |cs|
    ensures forall i :: 0 <= i < |cs| && cs[i].id != id ==> r[i] == cs[i]
    ensures forall i :: 0 <= i < |cs| && cs[i].id == id ==>
      r[i].id == id && r[i].name == name && r[i].color == color && r[i].kind == cs[i].kind
  {
    if cs == [] then []
    else [if cs[0].id == id then cs[0].(name := name, color := color) else cs[0]] + RenameWhere(cs[1..], id, name, color)
  }

  /** An edit never moves a category between the income and expense lists: each list is edited in place. */
  lemma {:induction false} RenameKeepsKinds(cs: seq<Category>, id: string, name: string, color: string, kind: Kind)
    ensures OfKind(RenameWhere(cs, id, name, color), kind) == RenameWhere(OfKind(cs, kind), id, name, color)
  {
    if cs != [] {
      var head := if cs[0].id == id then cs[0].(name := name, color := color) else cs[0];
      assert RenameWhere(cs, id, name, color) == [head] + RenameWhere(cs[1..], id, name, color);
      assert ([head] + RenameWhere(cs[1..], id, name, color))[1..] == RenameWhere(cs[1..], id, name, color);
      RenameKeepsKinds(cs[1..], id, name, color, kind);
      if cs[0].kind == kind {
        assert OfKind(cs, kind) == [cs[0]] + OfKind(cs[1..], kind);
        assert ([cs[0]] + OfKind(cs[1..], kind))[1..] == OfKind(cs[1..], kind);
      }
    }
  }

  /** `prev.filter(c => c.id !== id)`. */
  function RemoveId(cs: seq<Category>, id: string): (r: seq<Category>)
    ensures |r| <= |cs|
    ensures forall c :: c in r <==> c in cs && c.id != id
  {
    if cs == [] then []
    else (if cs[0].id == id then [] else [cs[0]]) + RemoveId(cs[1..], id)
  }

  /** Removal keeps the remaining categories in order: it distributes over concatenation. */
  lemma {:induction false} RemoveIdAppend(a: seq<Category>, b: seq<Category>, id: string)
    ensures RemoveId(a + b, id) == RemoveId(a, id) + RemoveId(b, id)
  {
    if a == [] {
      assert a + b == b;
    } else {
      assert (a + b)[1..] == a[1..] + b;
      RemoveIdAppend(a[1..], b, id);
    }
  }

  /** Removing an id that no category has changes nothing. */
  lemma {:induction false} RemoveAbsentId(cs: seq<Category>, id: string)
    requires forall i :: 0 <= i < |cs| ==> cs[i].id != id
    ensures RemoveId(cs, id) == cs
  {
    if cs != [] {
      RemoveAbsentId(cs[1..], id);
      assert cs == [cs[0]] + cs[1..];
    }
  }

  /** `accountTypeHuman`; an absent account type is the empty string. */
  function AccountTypeHuman(accountType: string): (r: string)
    ensures r == "Empresa" <==> accountType == "business"
    ensures r != "Empresa" ==> r == "Pessoa Física"
  {
    if accountType == "" then "Pessoa Física"
    else if accountType == "business" then "Empresa" else "Pessoa Física"
  }

  /** `!editingId`: no category is being edited (null or the empty id). */
  predicate NotEditing(editingId: Option<string>) {
    editingId.None? || editingId.value == ""
  }

  /** The inline editor: `editingId`, `editName`, `editColor`. */
  datatype Editor = Editor(editingId: Option<string>, editName: string, editColor: string)

  /** The editor at rest: (null, '', '#3ecf8e'). */
  const ClosedEditor := Editor(None, "", DefaultEntradaColor)

  /** One add form: `newEntradaName`/`newEntradaColor`/`addingEntrada` or their `Saida` counterparts. */
  datatype AddForm = AddForm(name: string, color: string, open: bool)

  /** The add form of `kind` as first shown and after each successful add. */
  function DefaultForm(kind: Kind): (f: AddForm)
    ensures f.name == "" && !f.open
    ensures f.color == (if kind == Entrada then DefaultEntradaColor else DefaultSaidaColor)
  {
    AddForm("", if kind == Entrada then DefaultEntradaColor else DefaultSaidaColor, false)
  }

  /**
   * What `addCategory` does with a form's contents: None when the trimmed name is blank
   * (the request is refused); otherwise the row to insert, with the trimmed name.
   */
  function NewRow(kind: Kind, form: AddForm, id: string): (r: Option<Category>)
    ensures r.None? <==> AllSpaces(form.name)
    ensures r.Some? ==> r.value == Category(id, Trim(form.name), kind, form.color) && r.value.name != ""
  {
    TrimEmptyIffAllSpaces(form.name);
    var name := Trim(form.name);
    if name == "" then None else Some(Category(id, name, kind, form.color))
  }

  class Panel {
    var categories: seq<Category>
    var editor: Editor
    var entradaForm: AddForm
    var saidaForm: AddForm

    /** The panel once `load` has stored the rows returned by the backend. */
    constructor (loaded: seq<Category>)
      ensures categories == loaded && editor == ClosedEditor
      ensures entradaForm == DefaultForm(Entrada) && saidaForm == DefaultForm(Saida)
    {
      categories := loaded;
      editor := ClosedEditor;
      entradaForm, saidaForm := DefaultForm(Entrada), DefaultForm(Saida);
    }

    /** The `entradas` memo. */
    function Entradas(): (r: seq<Category>)
      reads this
      ensures forall c :: c in r <==> c in categories && c.kind == Entrada
    {
      OfKind(categories, Entrada)
    }

    /** The `saidas` memo. */
    function Saidas(): (r: seq<Category>)
      reads this
      ensures forall c :: c in r <==> c in categories && c.kind == Saida
    {
      OfKind(categories, Saida)
    }

    /** `startEdit(cat)`: open the editor on `cat`, with the default colour when it has none. */
    method StartEdit(cat: Category)
      modifies this
      ensures editor == Editor(Some(cat.id), cat.name, if cat.color == "" then DefaultEntradaColor else cat.color)
      ensures categories == old(categories)
      ensures entradaForm == old(entradaForm) && saidaForm == old(saidaForm)
    {
      editor := Editor(Some(cat.id), cat.name, if cat.color == "" then DefaultEntradaColor else cat.color);
    }

    /** `cancelEdit`: the editor state goes back to (null, '', '#3ecf8e'). */
    method CancelEdit()
      modifies this
      ensures editor == ClosedEditor
      ensures categories == old(categories)
      ensures entradaForm == old(entradaForm) && saidaForm == old(saidaForm)
    {
      editor := ClosedEditor;
    }

    /**
     * `saveEdit` after a successful update: the category with the edited id takes the
     * trimmed name and the chosen colour, and the editor closes. Without an edited id
     * nothing happens.
     */
    method SaveEdit()
      modifies this
      ensures NotEditing(old(editor).editingId) ==> categories == old(categories) && editor == old(editor)
      ensures !NotEditing(old(editor).editingId) ==>
        && categories == RenameWhere(old(categories), old(editor).editingId.value, Trim(old(editor).editName), old(editor).editColor)
        && editor == ClosedEditor
      ensures entradaForm == old(entradaForm) && saidaForm == old(saidaForm)
    {
      var e := editor;
      if !NotEditing(e.editingId) {
        categories := RenameWhere(categories, e.editingId.value, Trim(e.editName), e.editColor);
        CancelEdit();
      }
    }

    /** `removeCategory(id)` after a successful delete. */
    method RemoveCategory(id: string)
      modifies this
      ensures categories == RemoveId(old(categories), id)
      ensures editor == old(editor) && entradaForm == old(entradaForm) && saidaForm == old(saidaForm)
    {
      categories := RemoveId(categories, id);
    }

    /**
     * `addCategory(kind)` after a successful insert. `signedIn` is whether there is a user;
     * `insertedId` is the id of the row the backend returns, or None when it returns no row.
     * Without a user, or with a name that is blank after trimming, nothing changes; otherwise
     * the new row is appended and that type's form goes back to its defaults.
     */
    method AddCategory(kind: Kind, signedIn: bool, insertedId: Option<string>)
      modifies this
      ensures var row := NewRow(kind, if kind == Entrada then old(entradaForm) else old(saidaForm), insertedId.GetOr(""));
        if !signedIn || row.None? then
          categories == old(categories) && entradaForm == old(entradaForm) && saidaForm == old(saidaForm)
        else
          && categories == old(categories) + (if insertedId.Some? then [row.value] else [])
          && (if kind == Entrada then entradaForm == DefaultForm(Entrada) && saidaForm == old(saidaForm)
              else saidaForm == DefaultForm(Saida) && entradaForm == old(entradaForm))
      ensures editor == old(editor)
    {
      var form := if kind == Entrada then entradaForm else saidaForm;
      var row := NewRow(kind, form, insertedId.GetOr(""));
      if signedIn && row.Some? {
        if insertedId.Some? {
          categories := categories + [row.value];
        }
        if kind == Entrada {
          entradaForm := DefaultForm(Entrada);
        } else {
          saidaForm := DefaultForm(Saida);
        }
      }
    }
  }

  /** A successful add shows the new category at the end of its own list and leaves the other list as it was. */
  lemma AddedCategoryEndsItsList(cs: seq<Category>, c: Category)
    ensures OfKind(cs + [c], c.kind) == OfKind(cs, c.kind) + [c]
    ensures forall k :: k != c.kind ==> OfKind(cs + [c], k) == OfKind(cs, k)
  {
    OfKindAppend(cs, [c], c.kind);
    assert OfKind([c], c.kind) == [c] + OfKind([], c.kind);
    forall k | k != c.kind ensures OfKind(cs + [c], k) == OfKind(cs, k) {
      OfKindAppend(cs, [c], k);
      assert OfKind([c], k) == [] + OfKind([], k);
      assert OfKind(cs, k) + [] == OfKind(cs, k);
    }
  }
}
