# Shopping list store and add dialog

A Dafny model of the state behind the `ShoppingListApp` screen of MyShoppingListApp.
The screen keeps an in-memory list of `ShoppingItem(id, name, quantity, isEditing)`
records. It offers four operations on that list:

- **Add**: the dialog's Save button appends an item with `id = size + 1`.
- **Start edit**: the edit icon writes `item.copy(isEditing = true)` at index `id - 1`.
- **Save edit**: a row's Save button writes the edited copy at index `id - 1`.
- **Delete**: the delete icon calls `MutableList.remove`, which drops the first equal item.

Around the list is the add dialog. Its state is a visibility flag and two text fields, which start as `""` and `"1"` each time the dialog opens.

The model has three modules:

- `KotlinText` (`kotlin_text.dfy`): the Kotlin library functions the screen relies on, as pure functions. These are `Char.isWhitespace`, `isBlank`/`isNotBlank`, `String.toIntOrNull`, the elvis fallback `?:` and `Int.toString`.
- `ShoppingStore` (`shopping_store.dfy`): the `ShoppingItem` record and the copies the callbacks build. It also has `indexOf`/`remove` on a sequence of items and the lemmas about ids used as positions.
- `ShoppingScreen` (`shopping_list_app.dfy`): the class `ShoppingListApp`. Its fields are the list (`items: seq<ShoppingItem>`), the dialog flag and the two dialog fields. Each callback is a method that states the whole new state. The file also has three user sessions written against the class.

The layout the edit callbacks depend on is `items[i].id == i + 1`. Add, start edit, save edit and deleting the last item preserve it. Deleting any other item breaks it, because ids are never renumbered. After that:

- a later add gives two items the same id (`AddAfterInnerDeleteDuplicatesId`);
- an edit or save on a shifted item lands on the row below it, or out of bounds for the last row (`EditAfterInnerDeleteMissesRow`, `EditAfterDeleteSession`).

The model keeps this behaviour exactly as the code has it.

Quantities need not be positive: `toIntOrNull` accepts `"0"` and `"-2"`, and both Save buttons keep such values.

The name check uses `isNotBlank`, which does not trim. The saved name is the text exactly as typed. An edit's Save does no blank check at all.

## Model

| member | source | states |
|---|---|---|
| `KotlinText.IsWhitespace` | app/src/main/java/com/example/myshoppinglistapp/ShoppingList.kt:109 | a whitespace character is never a digit or a sign, so it can never be part of a parsed quantity |
| `KotlinText.IsBlank` | app/src/main/java/com/example/myshoppinglistapp/ShoppingList.kt:109 | a blank name consists of whitespace characters only (the empty name included) |
| `KotlinText.IsNotBlank` | app/src/main/java/com/example/myshoppinglistapp/ShoppingList.kt:109 | a name that passes the dialog's check is never empty |
| `KotlinText.NotBlankIffVisibleChar` | app/src/main/java/com/example/myshoppinglistapp/ShoppingList.kt:109 | the add dialog's name is accepted exactly when some character of it is not whitespace |
| `KotlinText.ToIntOrNull` | app/src/main/java/com/example/myshoppinglistapp/ShoppingList.kt:113 | a parsed quantity always fits in a 32-bit `Int` |
| `KotlinText.Option.OrElse` | app/src/main/java/com/example/myshoppinglistapp/ShoppingList.kt:113 | the elvis operator `?:` gives the parsed value when there is one and the fallback when the parse is null (also line 82) |
| `KotlinText.ParsedTextShape` | app/src/main/java/com/example/myshoppinglistapp/ShoppingList.kt:113 | a quantity text that parses is an optional sign followed by decimal digits and nothing else |
| `KotlinText.ToIntOrNullOfSignedDigits` | app/src/main/java/com/example/myshoppinglistapp/ShoppingList.kt:113 | conversely, an optional `+`/`-` followed by one or more digits parses to the signed value of the digits (leading zeros allowed) when it fits in an `Int`, and to null when it does not |
| `KotlinText.WhitespaceIsNeverParsed` | app/src/main/java/com/example/myshoppinglistapp/ShoppingList.kt:113 | a quantity text with whitespace anywhere (" 3", "3 ") parses to null, so the fallback applies |
| `KotlinText.ToIntOrNullExamples` | app/src/main/java/com/example/myshoppinglistapp/ShoppingList.kt:113 | "3", "12", "-7", "+05", "0" parse to their values; "", "-", "abc", "xyz", "1.5" parse to null |
| `KotlinText.NatToString` | app/src/main/java/com/example/myshoppinglistapp/ShoppingList.kt:227 | the printed form of a non-negative quantity is a non-empty run of decimal digits |
| `KotlinText.IntToString` | app/src/main/java/com/example/myshoppinglistapp/ShoppingList.kt:227 | the printed quantity is non-empty, starts with `-` exactly when the quantity is negative, and is digits after the first character |
| `KotlinText.NatToStringDenotes` | app/src/main/java/com/example/myshoppinglistapp/ShoppingList.kt:227 | `toString` of a non-negative number is a non-empty run of digits, without a leading zero, denoting that number |
| `KotlinText.ToIntOrNullOfToString` | app/src/main/java/com/example/myshoppinglistapp/ShoppingList.kt:226-228 | parsing the printed quantity gives it back exactly when it fits in an `Int`, and null otherwise |
| `ShoppingStore.QuantityOr` | app/src/main/java/com/example/myshoppinglistapp/ShoppingList.kt:82 | `toIntOrNull() ?: fallback` stays within `Int` when the fallback does |
| `ShoppingStore.NewItem` | app/src/main/java/com/example/myshoppinglistapp/ShoppingList.kt:110-114 | the `ShoppingItem` (lines 36-41) built by the dialog has a positive id, an `Int` quantity that is 1 when the text does not parse, and `isEditing` at its default `false` |
| `ShoppingStore.NewItemFields` | app/src/main/java/com/example/myshoppinglistapp/ShoppingList.kt:110-114 | the new item has `id = size + 1`, the name verbatim, quantity = parsed value or else 1 (always an `Int`), and is not in edit mode |
| `ShoppingStore.NewItemQuantityExamples` | app/src/main/java/com/example/myshoppinglistapp/ShoppingList.kt:113 | "3" gives 3, "1" gives 1, "abc", "" and " 3" give 1, "0" and "-2" are kept as parsed |
| `ShoppingStore.EditingCopy` | app/src/main/java/com/example/myshoppinglistapp/ShoppingList.kt:74 | `copy(isEditing = true)` puts the item in edit mode and changes no other field |
| `ShoppingStore.SavedCopy` | app/src/main/java/com/example/myshoppinglistapp/ShoppingList.kt:80-84 | the copy written by a row's Save keeps the item's id, is out of edit mode, and keeps the quantity within `Int` |
| `ShoppingStore.SavedCopyFields` | app/src/main/java/com/example/myshoppinglistapp/ShoppingList.kt:80-84 | a saved edit keeps the id, takes the new name unchecked, takes the parsed quantity or else keeps the old one, and leaves edit mode |
| `ShoppingStore.SaveWithBadQuantityKeepsQuantity` | app/src/main/java/com/example/myshoppinglistapp/ShoppingList.kt:82 | saving an edit with quantity text "xyz" or "" keeps the item's previous quantity |
| `ShoppingStore.EditDrafts` | app/src/main/java/com/example/myshoppinglistapp/ShoppingList.kt:222-228 | a row in edit mode starts with the item's name and a quantity text that parses back to the item's quantity |
| `ShoppingStore.SaveOfSeededDraftsRestoresItem` | app/src/main/java/com/example/myshoppinglistapp/ShoppingList.kt:222-228 | saving a row whose edit fields still hold their seeded values gives back the same item, out of edit mode |
| `ShoppingStore.IndexOf` | app/src/main/java/com/example/myshoppinglistapp/ShoppingList.kt:77 | the result is -1 exactly when the item is absent, otherwise the first position holding an item equal on all four fields |
| `ShoppingStore.Remove` | app/src/main/java/com/example/myshoppinglistapp/ShoppingList.kt:77 | `remove` leaves the list unchanged when the item is absent, and otherwise shortens it by exactly one |
| `ShoppingStore.RemoveTakesOneCopy` | app/src/main/java/com/example/myshoppinglistapp/ShoppingList.kt:77 | `remove` takes out exactly one copy of the item (if any) and keeps every other item |
| `ShoppingStore.RemoveDropsFirstMatch` | app/src/main/java/com/example/myshoppinglistapp/ShoppingList.kt:77 | `remove` drops the first equal item and keeps the rest in order, with their ids unchanged |
| `ShoppingStore.RemoveKeepsWellFormed` | app/src/main/java/com/example/myshoppinglistapp/ShoppingList.kt:77 | `remove` keeps every remaining item with a positive id and an `Int` quantity |
| `ShoppingStore.AddKeepsPositional` | app/src/main/java/com/example/myshoppinglistapp/ShoppingList.kt:111-115 | appending the dialog's item keeps `items[i].id == i + 1` |
| `ShoppingStore.PositionalLocatesClickedRow` | app/src/main/java/com/example/myshoppinglistapp/ShoppingList.kt:74 | while ids are positional, `id - 1` is in bounds and holds the clicked item |
| `ShoppingStore.StartEditKeepsPositional` | app/src/main/java/com/example/myshoppinglistapp/ShoppingList.kt:74 | starting an edit on a listed item is in bounds and keeps ids positional |
| `ShoppingStore.SaveEditKeepsPositional` | app/src/main/java/com/example/myshoppinglistapp/ShoppingList.kt:80-84 | saving an edit of a listed item is in bounds and keeps ids positional |
| `ShoppingStore.DeleteLastKeepsPositional` | app/src/main/java/com/example/myshoppinglistapp/ShoppingList.kt:77 | deleting the last item removes the last row and keeps ids positional |
| `ShoppingStore.DeleteInnerBreaksPositional` | app/src/main/java/com/example/myshoppinglistapp/ShoppingList.kt:77 | deleting any other item leaves every later item at position j with id j + 2, so ids are no longer positional |
| `ShoppingStore.AddAfterInnerDeleteDuplicatesId` | app/src/main/java/com/example/myshoppinglistapp/ShoppingList.kt:111 | an add after such a delete gives the new item the same id as the item before it |
| `ShoppingStore.EditAfterInnerDeleteMissesRow` | app/src/main/java/com/example/myshoppinglistapp/ShoppingList.kt:74-84 | after such a delete, editing a shifted item targets index j + 1: out of bounds for the last row, otherwise a different item |
| `ShoppingScreen.ShoppingListApp.constructor` | app/src/main/java/com/example/myshoppinglistapp/ShoppingList.kt:45-51 | the screen starts with an empty list and the dialog closed |
| `ShoppingScreen.ShoppingListApp.PressAddItem` | app/src/main/java/com/example/myshoppinglistapp/ShoppingList.kt:57-98 | "Add Item" flips the dialog flag; when the dialog opens its fields are `""` and `"1"`; the list is unchanged |
| `ShoppingScreen.ShoppingListApp.CloseDialog` | app/src/main/java/com/example/myshoppinglistapp/ShoppingList.kt:101-103 | Cancel and a tap outside close the dialog and leave the list alone |
| `ShoppingScreen.ShoppingListApp.TypeName` | app/src/main/java/com/example/myshoppinglistapp/ShoppingList.kt:136 | typing replaces the name field |
| `ShoppingScreen.ShoppingListApp.TypeQuantity` | app/src/main/java/com/example/myshoppinglistapp/ShoppingList.kt:144 | typing replaces the quantity field |
| `ShoppingScreen.ShoppingListApp.SaveNewItem` | app/src/main/java/com/example/myshoppinglistapp/ShoppingList.kt:108-117 | a blank name changes nothing and keeps the dialog open; otherwise exactly one new item is appended, earlier items unchanged, and the dialog closes; ids that were positional stay positional |
| `ShoppingScreen.ShoppingListApp.StartEdit` | app/src/main/java/com/example/myshoppinglistapp/ShoppingList.kt:73-75 | position `id - 1` becomes the clicked item in edit mode; the length and all other positions are unchanged; ids that were positional stay positional |
| `ShoppingScreen.ShoppingListApp.SaveEdit` | app/src/main/java/com/example/myshoppinglistapp/ShoppingList.kt:79-85 | position `id - 1` becomes the saved copy; the length and all other positions are unchanged; ids that were positional stay positional |
| `ShoppingScreen.ShoppingListApp.Delete` | app/src/main/java/com/example/myshoppinglistapp/ShoppingList.kt:76-78 | the list becomes `remove` of the old list; positive ids and `Int` quantities are kept; deleting the last item of a positional list keeps it positional |
| `ShoppingScreen.AddThroughDialog` | app/src/main/java/com/example/myshoppinglistapp/ShoppingList.kt:108-116 | open, fill in, Save with a non-blank name: the list gains the new item at the end and the dialog is closed |
| `ShoppingScreen.AddAddDeleteSession` | app/src/main/java/com/example/myshoppinglistapp/ShoppingList.kt:76-117 | add Eggs/"12", add Bread/"", delete Eggs: the list is `[Bread]` with id 2, not renumbered |
| `ShoppingScreen.BlankNameSession` | app/src/main/java/com/example/myshoppinglistapp/ShoppingList.kt:109 | Save with a blank name leaves the list empty and the dialog open |
| `ShoppingScreen.EditAfterDeleteSession` | app/src/main/java/com/example/myshoppinglistapp/ShoppingList.kt:74-77 | add A, B, C; delete A; edit B: B is written over C, so the list holds B twice |

## Left out

- Compose rendering and layout are not modelled. This covers columns, rows, the alert dialog, modifiers, colours, icons and text styles. None of it has stateable behaviour.
- The row's switch between display and edit layouts (lines 163-178) is not modelled. It only presents the `isEditing` flag.
- The Compose runtime is not modelled: `remember`, recomposition and change notification. The observable list is a `seq` field. The fresh dialog fields that `remember` creates when the dialog appears are an explicit reset in `PressAddItem`.
- `PressAddItem`, `CloseDialog`: when the dialog closes, the model keeps the old field texts, whereas Compose forgets them. Nothing can observe them before the next opening resets them.
- A row's own edit fields (`nameChange`, `quantityChange`) are not class state. Typing in them is not modelled. Their seeding is `EditDrafts`, and their values at Save time are the parameters of `SaveEdit`.
- `StartEdit`, `SaveEdit`: an `id - 1` outside the list throws `IndexOutOfBoundsException` in the code. Here that is a precondition. Both methods also require that the clicked item is in the list, since the row's callback captures a rendered element.
- `SaveNewItem`: `id = size + 1` is computed without 32-bit wrap-around. The wrap would need a list of 2^31 - 1 items, and each of them is a separate `ShoppingItem` object. That is tens of gigabytes, far above the heap an Android app is given.
- `ToIntOrNull`: digits are ASCII `0`-`9` only. Kotlin also accepts other Unicode decimal digits (e.g. Arabic-Indic digits).
- `ToIntOrNull`: the result is modelled as a function. The library's digit-by-digit loop with negative accumulation and overflow checks is not modelled; its result is the same.
- `IsWhitespace`: the model's `char` is a Unicode scalar value, whereas Kotlin's is a UTF-16 code unit. No whitespace character lies outside the Basic Multilingual Plane, so blankness is unaffected. The set of separators is that of the JVM's Unicode tables; U+180E is not counted.
