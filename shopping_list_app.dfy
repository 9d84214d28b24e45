/**
 * The state of the `ShoppingListApp` screen and the callbacks that change it:
 * the list of items, the add dialog's visibility flag and its two text
 * fields. Each callback is a method that says exactly what the new state is.
 */
module ShoppingScreen {
  import opened KotlinText
  import opened ShoppingStore

  class ShoppingListApp {
    /** `sItems`, the observable list the rows are rendered from. */
    var items: seq<ShoppingItem>
    /** `showDialog`: whether the add dialog is on screen. */
    var showDialog: bool
    /** The add dialog's name field. */
    var nameDraft: string
    /** The add dialog's quantity field. */
    var quantityDraft: string

    /**
     * What every callback keeps: each item has a positive id and a quantity
     * that fits in a Kotlin `Int`.
     */
    ghost predicate Valid()
      reads this
    {
      WellFormedItems(items)
    }

    /** The screen starts with an empty list and the dialog closed. */
    constructor ()
      ensures Valid()
      ensures items == [] && !showDialog
      ensures nameDraft == "" && quantityDraft == "1"
    {
      items := [];
      showDialog := false;
      nameDraft := "";
      quantityDraft := "1";
    }

    /**
     * The "Add Item" button flips the dialog flag. When the dialog comes up,
     * its fields are created afresh: the name empty, the quantity "1".
     */
    method PressAddItem()
      requires Valid()
      modifies this
      ensures Valid()
      ensures items == old(items)
      ensures showDialog == !old(showDialog)
      ensures showDialog ==> nameDraft == "" && quantityDraft == "1"
      ensures !showDialog ==> nameDraft == old(nameDraft) && quantityDraft == old(quantityDraft)
    {
      showDialog := !showDialog;
      if showDialog {
        nameDraft := "";
        quantityDraft := "1";
      }
    }

    /** Cancel, or a tap outside the dialog: the dialog closes and nothing is added. */
    method CloseDialog()
      requires Valid()
      modifies this`showDialog
      ensures Valid()
      ensures !showDialog
    {
      showDialog := false;
    }

    /** Typing in the dialog's name field replaces its text. */
    method TypeName(text: string)
      requires showDialog
      modifies this`nameDraft
      ensures nameDraft == text
    {
      nameDraft := text;
    }

    /** Typing in the dialog's quantity field replaces its text. */
    method TypeQuantity(text: string)
      requires showDialog
      modifies this`quantityDraft
      ensures quantityDraft == text
    {
      quantityDraft := text;
    }

    /**
     * The dialog's Save button. A blank name changes nothing and the dialog
     * stays up. Otherwise one item is appended after all the others, with
     * the next position as id, the name as typed, the parsed quantity or 1,
     * out of edit mode, and the dialog closes.
     */
    method SaveNewItem()
      requires Valid() && showDialog
      modifies this`items, this`showDialog
      ensures Valid()
      ensures IsBlank(nameDraft) ==> items == old(items) && showDialog
      ensures IsNotBlank(nameDraft) ==>
        && |items| == |old(items)| + 1
        && items[..|old(items)|] == old(items)
        && items[|old(items)|] == NewItem(|old(items)|, nameDraft, quantityDraft)
        && !showDialog
      ensures old(PositionalIds(items)) ==> PositionalIds(items)
    {
      if IsNotBlank(nameDraft) {
        var item := NewItem(|items|, nameDraft, quantityDraft);
        if PositionalIds(items) {
          AddKeepsPositional(items, nameDraft, quantityDraft);
        }
        items := items + [item];
        showDialog := false;
      }
    }

    /**
     * The edit icon of a row: position `item.id - 1` gets the clicked item in
     * edit mode; nothing else changes. An id outside 1..|items| throws in
     * the source and is excluded here.
     */
    method StartEdit(item: ShoppingItem)
      requires Valid() && item in items
      requires 1 <= item.id <= |items|
      modifies this`items
      ensures Valid()
      ensures |items| == |old(items)|
      ensures items[item.id - 1] == item.(isEditing := true)
      ensures forall j :: 0 <= j < |items| && j != item.id - 1 ==> items[j] == old(items)[j]
      ensures old(PositionalIds(items)) ==> PositionalIds(items)
    {
      if PositionalIds(items) {
        StartEditKeepsPositional(items, item);
      }
      items := items[item.id - 1 := EditingCopy(item)];
    }

    /**
     * The Save button of a row in edit mode: position `item.id - 1` gets the
     * clicked item with the new name, the parsed quantity or else its old
     * one, out of edit mode; nothing else changes.
     */
    method SaveEdit(item: ShoppingItem, name: string, quantityText: string)
      requires Valid() && item in items
      requires 1 <= item.id <= |items|
      modifies this`items
      ensures Valid()
      ensures |items| == |old(items)|
      ensures items[item.id - 1] == SavedCopy(item, name, quantityText)
      ensures forall j :: 0 <= j < |items| && j != item.id - 1 ==> items[j] == old(items)[j]
      ensures old(PositionalIds(items)) ==> PositionalIds(items)
    {
      if PositionalIds(items) {
        SaveEditKeepsPositional(items, item, name, quantityText);
      }
      items := items[item.id - 1 := SavedCopy(item, name, quantityText)];
    }

    /**
     * The delete icon of a row: the first item equal to the clicked one on
     * all four fields goes; if there is none, the list is unchanged.
     */
    method Delete(item: ShoppingItem)
      requires Valid()
      modifies this`items
      ensures Valid()
      ensures items == Remove(old(items), item)
      ensures old(PositionalIds(items)) && old(items) != [] && item == old(items)[|old(items)| - 1] ==>
        PositionalIds(items)
    {
      RemoveKeepsWellFormed(items, item);
      if PositionalIds(items) && items != [] && item == items[|items| - 1] {
        DeleteLastKeepsPositional(items);
      }
      items := Remove(items, item);
    }
  }

  /**
   * The add flow: open the dialog, fill in both fields, press Save. With a
   * non-blank name the list gains the new item at the end and the dialog is
   * closed again.
   */
  method AddThroughDialog(app: ShoppingListApp, name: string, quantityText: string)
    requires app.Valid() && !app.showDialog && IsNotBlank(name)
    modifies app
    ensures app.Valid() && !app.showDialog
    ensures app.items == old(app.items) + [NewItem(|old(app.items)|, name, quantityText)]
  {
    app.PressAddItem();
    app.TypeName(name);
    app.TypeQuantity(quantityText);
    app.SaveNewItem();
    assert app.items == old(app.items) + [app.items[|old(app.items)|]];
  }

  /**
   * A user session: add "Eggs" with "12", add "Bread" with an empty quantity,
   * delete the eggs. The bread keeps id 2 although it now sits at position 0.
   */
  method AddAddDeleteSession() returns (final: seq<ShoppingItem>)
    ensures |final| == 1 && final[0] == ShoppingItem(2, "Bread", 1, false)
  {
    var eggs, bread := ShoppingItem(1, "Eggs", 12, false), ShoppingItem(2, "Bread", 1, false);
    assert ToIntOrNull("12") == Some(12) && ToIntOrNull("") == None by {
      ToIntOrNullExamples();
    }
    var app := new ShoppingListApp();
    AddThroughDialog(app, "Eggs", "12");
    AddThroughDialog(app, "Bread", "");
    assert app.items == [eggs, bread];
    assert Remove([eggs, bread], eggs) == [bread] by {
      RemoveDropsFirstMatch([eggs, bread], eggs, 0);
    }
    app.Delete(eggs);
    final := app.items;
  }

  /** A blank name leaves the list empty and the dialog up, however often Save is pressed. */
  method BlankNameSession() returns (final: seq<ShoppingItem>, open: bool)
    ensures final == [] && open
  {
    var app := new ShoppingListApp();
    app.PressAddItem();
    app.TypeName("  ");
    app.SaveNewItem();
    app.SaveNewItem();
    final, open := app.items, app.showDialog;
  }

  /**
   * Three items, the first deleted, then the second one edited: its edit
   * icon writes position 1, so the third item is overwritten by a copy of
   * the second and the list shows the second item twice.
   */
  method EditAfterDeleteSession() returns (final: seq<ShoppingItem>)
    ensures |final| == 2
    ensures final[0] == ShoppingItem(2, "B", 1, false)
    ensures final[1] == ShoppingItem(2, "B", 1, true)
  {
    var a, b, c := ShoppingItem(1, "A", 1, false), ShoppingItem(2, "B", 1, false), ShoppingItem(3, "C", 1, false);
    assert ToIntOrNull("1") == Some(1);
    var app := new ShoppingListApp();
    AddThroughDialog(app, "A", "1");
    AddThroughDialog(app, "B", "1");
    AddThroughDialog(app, "C", "1");
    assert app.items == [a, b, c];
    assert Remove([a, b, c], a) == [b, c] by {
      RemoveDropsFirstMatch([a, b, c], a, 0);
    }
    app.Delete(a);
    app.StartEdit(b);
    final := app.items;
  }
}
