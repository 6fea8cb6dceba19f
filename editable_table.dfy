/**
 * The click-to-edit table (TablesView/EditableTable.tsx).  The state is
 * the cell being edited, if any, and the text in its editor.  Cell values
 * are of a type `V` the caller chooses.  An `onUpdate` call becomes the
 * returned `UpdateCall`; whether its promise resolves is an input.
 */
module EditableTable {

  import opened Common

  /** A cell address: a row index and a column id. */
  datatype Cell = Cell(rowIndex: int, columnId: string)

  /** The arguments of one `onUpdate(rowIndex, columnId, value)` call. */
  datatype UpdateCall<V> = UpdateCall(rowIndex: int, columnId: string, value: V)

  /** The keys the editor reacts to; every other key is `Other`. */
  datatype Key = Enter | Escape | Other

  class Table<V> {
    var editingCell: Option<Cell>
    var editValue: V

    /** `useState(null)` and `useState('')`: `blank` is the caller's empty value. */
    constructor (blank: V)
      ensures editingCell == None && editValue == blank
    {
      editingCell := None;
      editValue := blank;
    }

    /** The `isEditing` test (lines 77-79): both the row index and the column id match. */
    predicate IsEditing(rowIndex: int, columnId: string)
      reads this
    {
      editingCell.Some? && editingCell.value.rowIndex == rowIndex && editingCell.value.columnId == columnId
    }

    /** `handleCellClick` (lines 37-40): the clicked cell becomes the one editing cell, seeded with its value. */
    method CellClick(rowIndex: int, columnId: string, value: V)
      modifies this
      ensures editingCell == Some(Cell(rowIndex, columnId)) && editValue == value
      ensures forall r, c :: IsEditing(r, c) <==> r == rowIndex && c == columnId
    {
      editingCell := Some(Cell(rowIndex, columnId));
      editValue := value;
    }

    /** The text field's `onChange` (line 90). */
    method Change(value: V)
      modifies this
      ensures editValue == value && editingCell == old(editingCell)
    {
      editValue := value;
    }

    /**
     * `handleCellBlur` (lines 42-47): with an editing cell, one `onUpdate`
     * call with the cell and the edited value; editing ends only once that
     * call has succeeded.  Without an editing cell nothing happens.
     */
    method Blur(updateSucceeds: bool) returns (call: Option<UpdateCall<V>>)
      modifies this
      ensures old(editingCell).None? ==> call == None && editingCell == None
      ensures old(editingCell).Some? ==>
                call == Some(UpdateCall(old(editingCell).value.rowIndex, old(editingCell).value.columnId, old(editValue)))
      ensures editingCell == (if updateSucceeds then None else old(editingCell))
      ensures editValue == old(editValue)
    {
      call := None;
      if editingCell.Some? {
        call := Some(UpdateCall(editingCell.value.rowIndex, editingCell.value.columnId, editValue));
        if updateSucceeds {
          editingCell := None;
        }
      }
    }

    /** `handleCellKeyPress` (lines 49-55): Enter commits as blur does, Escape cancels without an update. */
    method KeyPress(key: Key, updateSucceeds: bool) returns (call: Option<UpdateCall<V>>)
      modifies this
      ensures key == Enter ==>
                call == (if old(editingCell).Some?
                         then Some(UpdateCall(old(editingCell).value.rowIndex, old(editingCell).value.columnId, old(editValue)))
                         else None) &&
                editingCell == (if updateSucceeds then None else old(editingCell))
      ensures key == Escape ==> call == None && editingCell == None
      ensures key == Other ==> call == None && editingCell == old(editingCell)
      ensures editValue == old(editValue)
    {
      call := None;
      if key == Enter {
        call := Blur(updateSucceeds);
      } else if key == Escape {
        editingCell := None;
      }
    }
  }
}
