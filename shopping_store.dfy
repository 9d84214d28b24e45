/**
 * The shopping-list store as values: the `ShoppingItem` record, the copies the
 * screen's callbacks build from it, `MutableList.remove` on a sequence of
 * items, and the facts about the `items[i].id == i + 1` layout that the
 * callbacks rely on when they use `id - 1` as a position.
 */
module ShoppingStore {
  import opened KotlinText

  /** One row of the list; `isEditing` is true while the row shows its edit fields. */
  datatype ShoppingItem = ShoppingItem(id: int, name: string, quantity: int, isEditing: bool)

  /** `text.toIntOrNull() ?: fallback`, the quantity rule of both Save buttons. */
  function QuantityOr(text: string, fallback: int): (q: int)
    ensures IsInt32(fallback) ==> IsInt32(q)
  {
    ToIntOrNull(text).OrElse(fallback)
  }

  /** The item the add dialog's Save button builds when the list holds `size` items. */
  function NewItem(size: nat, name: string, quantityText: string): (item: ShoppingItem)
    ensures item.id >= 1 && IsInt32(item.quantity) && !item.isEditing
    ensures ToIntOrNull(quantityText).None? ==> item.quantity == 1
  {
    ShoppingItem(size + 1, name, QuantityOr(quantityText, 1), false)
  }

  /** `item.copy(isEditing = true)`, written by the edit icon. */
  function EditingCopy(item: ShoppingItem): (r: ShoppingItem)
    ensures r.isEditing && r.(isEditing := item.isEditing) == item
  {
    item.(isEditing := true)
  }

  /** The copy the Save button of a row in edit mode writes back. */
  function SavedCopy(item: ShoppingItem, name: string, quantityText: string): (r: ShoppingItem)
    ensures r.id == item.id && !r.isEditing
    ensures IsInt32(item.quantity) ==> IsInt32(r.quantity)
  {
    item.(name := name, quantity := QuantityOr(quantityText, item.quantity), isEditing := false)
  }

  /** The name and quantity fields a row in edit mode starts from. */
  function EditDrafts(item: ShoppingItem): (drafts: (string, string))
    ensures drafts.0 == item.name
    ensures IsInt32(item.quantity) ==> ToIntOrNull(drafts.1) == Some(item.quantity)
  {
    ToIntOrNullOfToString(item.quantity);
    (item.name, IntToString(item.quantity))
  }

  /**
   * The new item carries the next position as its id, the name exactly as
   * typed, a quantity that is the parsed `Int` or else 1, and is not in edit
   * mode.
   */
  lemma NewItemFields(size: nat, name: string, quantityText: string)
    ensures var item := NewItem(size, name, quantityText);
      && item.id == size + 1
      && item.name == name
      && !item.isEditing
      && IsInt32(item.quantity)
      && (ToIntOrNull(quantityText).Some? ==> item.quantity == ToIntOrNull(quantityText).value)
      && (ToIntOrNull(quantityText).None? ==> item.quantity == 1)
  {
  }

  /** Quantities typed as in the add dialog: "3" gives 3, "abc" and "" give 1, "0" and "-2" are kept. */
  lemma NewItemQuantityExamples()
    ensures NewItem(0, "Milk", "3") == ShoppingItem(1, "Milk", 3, false)
    ensures NewItem(4, "Milk", "1").quantity == 1
    ensures NewItem(4, "Milk", "abc").quantity == 1
    ensures NewItem(4, "Milk", "").quantity == 1
    ensures NewItem(4, "Milk", "0").quantity == 0
    ensures NewItem(4, "Milk", "-2").quantity == -2
    ensures NewItem(4, "Milk", " 3").quantity == 1
  {
  }

  /**
   * Saving an edit keeps the id, takes the new name as given (blank or not),
   * takes the parsed quantity or else keeps the old one, and leaves edit mode.
   */
  lemma SavedCopyFields(item: ShoppingItem, name: string, quantityText: string)
    ensures var saved := SavedCopy(item, name, quantityText);
      && saved.id == item.id
      && saved.name == name
      && !saved.isEditing
      && (ToIntOrNull(quantityText).Some? ==> saved.quantity == ToIntOrNull(quantityText).value)
      && (ToIntOrNull(quantityText).None? ==> saved.quantity == item.quantity)
  {
  }

  /** Saving with an unparsable quantity such as "xyz" keeps the previous quantity. */
  lemma SaveWithBadQuantityKeepsQuantity(item: ShoppingItem, name: string)
    ensures SavedCopy(item, name, "xyz").quantity == item.quantity
    ensures SavedCopy(item, name, "").quantity == item.quantity
  {
  }

  /**
   * Pressing Save on a row whose fields still hold what edit mode put there
   * gives back the item itself, out of edit mode.
   */
  lemma SaveOfSeededDraftsRestoresItem(item: ShoppingItem)
    requires IsInt32(item.quantity)
    ensures SavedCopy(item, EditDrafts(item).0, EditDrafts(item).1) == item.(isEditing := false)
  {
  }

  // ---------------------------------------------------------------------------
  // MutableList.remove
  // ---------------------------------------------------------------------------

  /** `List.indexOf`: the first position holding `x` (equal on all four fields), or -1. */
  function IndexOf(s: seq<ShoppingItem>, x: ShoppingItem): (k: int)
    ensures -1 <= k < |s|
    ensures k == -1 <==> x !in s
    ensures 0 <= k ==> s[k] == x && forall j :: 0 <= j < k ==> s[j] != x
    decreases |s|
  {
    if s == [] then -1
    else if s[0] == x then 0
    else
      var k := IndexOf(s[1..], x);
      if k == -1 then -1 else k + 1
  }

  /** `MutableList.remove(x)`: drop the first element equal to `x`, if any. */
  function Remove(s: seq<ShoppingItem>, x: ShoppingItem): (r: seq<ShoppingItem>)
    ensures x !in s ==> r == s
    ensures x in s ==> |r| == |s| - 1
  {
    var k := IndexOf(s, x);
    if k == -1 then s else s[..k] + s[k + 1..]
  }

  /** Exactly one copy of `x` goes, if there is one; every other item stays. */
  lemma RemoveTakesOneCopy(s: seq<ShoppingItem>, x: ShoppingItem)
    ensures multiset(Remove(s, x)) == multiset(s) - multiset{x}
  {
    var k := IndexOf(s, x);
    if k != -1 {
      assert s == s[..k] + [x] + s[k + 1..];
    }
  }

  /**
   * Removing takes out exactly the first match: everything before and after
   * it stays, in order, with its own id (nothing is renumbered).
   */
  lemma RemoveDropsFirstMatch(s: seq<ShoppingItem>, x: ShoppingItem, k: nat)
    requires k < |s| && s[k] == x
    requires forall j :: 0 <= j < k ==> s[j] != x
    ensures Remove(s, x) == s[..k] + s[k + 1..]
  {
  }

  /** Every item has a positive id and a quantity that fits in a Kotlin `Int`. */
  predicate WellFormedItems(s: seq<ShoppingItem>) {
    forall i :: 0 <= i < |s| ==> s[i].id >= 1 && IsInt32(s[i].quantity)
  }

  /** Removing an item keeps every remaining item well formed. */
  lemma RemoveKeepsWellFormed(s: seq<ShoppingItem>, x: ShoppingItem)
    requires WellFormedItems(s)
    ensures WellFormedItems(Remove(s, x))
  {
    if x in s {
      var k := IndexOf(s, x);
      RemoveDropsFirstMatch(s, x, k);
      var r := Remove(s, x);
      assert forall i :: k < i < |s| ==> r[i - 1] == s[i];
    }
  }

  // ---------------------------------------------------------------------------
  // Ids used as positions
  // ---------------------------------------------------------------------------

  /** The layout the edit callbacks assume: the item at position i has id i + 1. */
  predicate PositionalIds(s: seq<ShoppingItem>) {
    forall i :: 0 <= i < |s| ==> s[i].id == i + 1
  }

  /** Appending the dialog's new item keeps ids positional. */
  lemma AddKeepsPositional(s: seq<ShoppingItem>, name: string, quantityText: string)
    requires PositionalIds(s)
    ensures PositionalIds(s + [NewItem(|s|, name, quantityText)])
  {
  }

  /**
   * While ids are positional, `id - 1` is in bounds for every item of the list
   * and holds that very item, so an edit writes the row that was clicked.
   */
  lemma PositionalLocatesClickedRow(s: seq<ShoppingItem>, item: ShoppingItem)
    requires PositionalIds(s) && item in s
    ensures 1 <= item.id <= |s| && s[item.id - 1] == item
  {
  }

  /** Entering edit mode on a listed item keeps ids positional. */
  lemma StartEditKeepsPositional(s: seq<ShoppingItem>, item: ShoppingItem)
    requires PositionalIds(s) && item in s
    ensures 1 <= item.id <= |s|
    ensures PositionalIds(s[item.id - 1 := EditingCopy(item)])
  {
  }

  /** Saving an edit of a listed item keeps ids positional. */
  lemma SaveEditKeepsPositional(s: seq<ShoppingItem>, item: ShoppingItem, name: string, quantityText: string)
    requires PositionalIds(s) && item in s
    ensures 1 <= item.id <= |s|
    ensures PositionalIds(s[item.id - 1 := SavedCopy(item, name, quantityText)])
  {
  }

  /** Deleting the last item removes the last row and keeps ids positional. */
  lemma DeleteLastKeepsPositional(s: seq<ShoppingItem>)
    requires PositionalIds(s) && |s| > 0
    ensures Remove(s, s[|s| - 1]) == s[..|s| - 1]
    ensures PositionalIds(Remove(s, s[|s| - 1]))
  {
  }

  /**
   * Deleting any item but the last shifts the later items one place left
   * without renumbering them: the item now at position k has id k + 2.
   */
  lemma DeleteInnerBreaksPositional(s: seq<ShoppingItem>, k: nat)
    requires PositionalIds(s) && k < |s| - 1
    ensures |Remove(s, s[k])| == |s| - 1
    ensures forall j :: k <= j < |s| - 1 ==> Remove(s, s[k])[j].id == j + 2
    ensures !PositionalIds(Remove(s, s[k]))
  {
    forall j | 0 <= j < k
      ensures s[j] != s[k]
    {
      assert s[j].id != s[k].id;
    }
    RemoveDropsFirstMatch(s, s[k], k);
    var r := Remove(s, s[k]);
    assert forall j :: k <= j < |s| - 1 ==> r[j] == s[j + 1];
    assert r[k].id == k + 2;
  }

  /**
   * After such a delete, the next add reuses the id of the last item: the
   * list then holds two items with the same id.
   */
  lemma AddAfterInnerDeleteDuplicatesId(s: seq<ShoppingItem>, k: nat, name: string, quantityText: string)
    requires PositionalIds(s) && k < |s| - 1
    ensures var r := Remove(s, s[k]);
      var t := r + [NewItem(|r|, name, quantityText)];
      |t| == |s| && t[|t| - 2].id == t[|t| - 1].id == |s|
  {
  }

  /**
   * After such a delete, clicking edit or save on a shifted item at position
   * j uses index j + 1: out of bounds for the last item, and otherwise the
   * row below it, which holds a different item.
   */
  lemma EditAfterInnerDeleteMissesRow(s: seq<ShoppingItem>, k: nat, j: nat)
    requires PositionalIds(s) && k < |s| - 1
    requires k <= j < |s| - 1
    ensures var r := Remove(s, s[k]);
      && r[j].id - 1 == j + 1
      && (j == |r| - 1 ==> r[j].id - 1 == |r|)
      && (j < |r| - 1 ==> r[r[j].id - 1] != r[j])
  {
  }
}
