/**
 * The onboarding step where the user lists income ('entradas') and expense ('saidas')
 * category names: each list starts with placeholder examples, rows can be added, edited
 * and deleted, and a row's delete button is shown only while its list has more than one row.
 */
module Setup {
  import opened Categories

  /** `list.filter((_, i) => i !== index)`. */
  function DropIndex(s: seq<string>, index: int): (r: seq<string>)
    ensures 0 <= index < |s| ==> |r| == |s| - 1
    ensures 0 <= index < |s| ==> forall j :: 0 <= j < index ==> r[j] == s[j]
    ensures 0 <= index < |s| ==> forall j :: index <= j < |r| ==> r[j] == s[j + 1]
    ensures !(0 <= index < |s|) ==> r == s
  {
    if 0 <= index < |s| then s[..index] + s[index + 1..] else s
  }

  /** Adding a row and then deleting it gives back the list as it was. */
  lemma DropAddedRow(s: seq<string>)
    ensures DropIndex(s + [""], |s|) == s
  {
    assert (s + [""])[..|s|] == s;
  }

  /** Editing a row and deleting it is the same as deleting it: the deleted value is gone. */
  lemma DropUpdatedRow(s: seq<string>, index: int, value: string)
    requires 0 <= index < |s|
    ensures DropIndex(s[index := value], index) == DropIndex(s, index)
  {
    assert s[index := value][..index] == s[..index];
    assert s[index := value][index + 1..] == s[index + 1..];
  }

  /** `list.length > 1 && <Button … />`: the delete button of each row. */
  predicate DeleteVisible(s: seq<string>) {
    |s| > 1
  }

  /** A delete the UI can issue never empties a list. */
  lemma DeleteKeepsRows(s: seq<string>, index: int)
    requires DeleteVisible(s) && 0 <= index < |s|
    ensures |DropIndex(s, index)| >= 1
  {
  }

  class Form {
    var entradas: seq<string>
    var saidas: seq<string>

    /** Both lists have a row: there is always something to edit. */
    ghost predicate Valid()
      reads this
    {
      |entradas| >= 1 && |saidas| >= 1
    }

    function List(kind: Kind): seq<string>
      reads this
    {
      if kind == Entrada then entradas else saidas
    }

    /** The placeholder rows the step starts with. */
    constructor ()
      ensures Valid()
      ensures entradas == ["Ex: salário"] && saidas == ["Ex: aluguel", "Ex: mercado"]
    {
      entradas := ["Ex: salário"];
      saidas := ["Ex: aluguel", "Ex: mercado"];
    }

    /** `addEntrada` / `addSaida`: append an empty row. */
    method Add(kind: Kind)
      requires Valid()
      modifies this
      ensures Valid()
      ensures List(kind) == old(List(kind)) + [""]
      ensures kind == Entrada ==> saidas == old(saidas)
      ensures kind == Saida ==> entradas == old(entradas)
    {
      if kind == Entrada {
        entradas := entradas + [""];
      } else {
        saidas := saidas + [""];
      }
    }

    /** `updateEntrada(index, value)` / `updateSaida`: copy the list and overwrite one row. */
    method Update(kind: Kind, index: int, value: string)
      requires Valid() && 0 <= index < |List(kind)|
      modifies this
      ensures Valid()
      ensures |List(kind)| == |old(List(kind))|
      ensures List(kind)[index] == value
      ensures forall j :: 0 <= j < |List(kind)| && j != index ==> List(kind)[j] == old(List(kind))[j]
      ensures kind == Entrada ==> saidas == old(saidas)
      ensures kind == Saida ==> entradas == old(entradas)
    {
      var copy := List(kind);
      copy := copy[index := value];
      if kind == Entrada {
        entradas := copy;
      } else {
        saidas := copy;
      }
    }

    /** `deleteEntrada(index)` / `deleteSaida`: drop one row; only offered while the list has two or more. */
    method Delete(kind: Kind, index: int)
      requires Valid() && DeleteVisible(List(kind)) && 0 <= index < |List(kind)|
      modifies this
      ensures Valid()
      ensures List(kind) == DropIndex(old(List(kind)), index)
      ensures kind == Entrada ==> saidas == old(saidas)
      ensures kind == Saida ==> entradas == old(entradas)
    {
      if kind == Entrada {
        entradas := DropIndex(entradas, index);
      } else {
        saidas := DropIndex(saidas, index);
      }
    }
  }
}
