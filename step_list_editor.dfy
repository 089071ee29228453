/**
 * The step list editor of the site page (the first-generation flow editor).
 * Steps are addressed by their position in the list; the editor keeps which
 * position the drawer is editing (-1 for a new step) and whether the drawer
 * is open. Every handler works on a copy of the list it is given and reports
 * the new list through `onChange`, modelled as the returned value (`None`
 * when `onChange` is not called).
 */
module StepListEditor {
  import opened Wrappers
  import opened Dicts
  import opened JsonValues
  import opened Steps
  import Lists

  /** The values of the freshly reset form: only `expect.type` has an initial value. */
  function EmptyForm(): (f: FormValues)
    ensures f.headersList == [] && f.bodyString == None && f.condition == None && f.extract == None
    ensures f.expectation == Some(Expect("json", "", JNull))
  {
    FormValues("", "", "", None, [], None, Some(Expect("json", "", JNull)), None)
  }

  /** The list after saving `step`: it replaces position `editingIndex`, or is appended when that is -1. */
  function SaveStep(value: seq<Step>, editingIndex: int, step: Step): (r: seq<Step>)
    requires editingIndex < |value|
    ensures editingIndex > -1 ==> |r| == |value| && r[editingIndex] == step
    ensures editingIndex > -1 ==> forall k :: 0 <= k < |value| && k != editingIndex ==> r[k] == value[k]
    ensures editingIndex <= -1 ==> |r| == |value| + 1 && r[..|value|] == value && r[|value|] == step
  {
    if editingIndex > -1 then value[editingIndex := step] else value + [step]
  }

  class FlowEditor {
    var editingIndex: int
    var drawerVisible: bool
    /** What the drawer's form shows. */
    var form: FormValues

    constructor ()
      ensures editingIndex == -1 && !drawerVisible && form == EmptyForm()
    {
      editingIndex := -1;
      drawerVisible := false;
      form := EmptyForm();
    }

    /** Opens the drawer on an empty form for a new step. */
    method HandleAdd()
      modifies this
      ensures editingIndex == -1 && drawerVisible && form == EmptyForm()
    {
      editingIndex := -1;
      form := EmptyForm();
      drawerVisible := true;
    }

    /**
     * Opens the drawer on the step at `index`, headers as rows and an object
     * body as JSON text, merged into what the form already holds.
     */
    method HandleEdit(c: Codec, value: seq<Step>, index: nat)
      requires index < |value|
      modifies this
      ensures editingIndex == index && drawerVisible
      ensures form == MergedEditForm(c, old(form), value[index])
    {
      editingIndex := index;
      var step := value[index];
      var headersList := HeadersToRows(step.headers);
      var bodyString := step.body;
      if step.body.Some? && (step.body.value.JObj? || step.body.value.JArr?) {
        bodyString := Some(JStr(c.stringify(step.body.value)));
      }
      form := form.(name := step.name, httpMethod := step.httpMethod, url := step.url,
                    headersList := headersList, bodyString := bodyString);
      if step.condition.Some? {
        form := form.(condition := step.condition);
      }
      if step.expectation.Some? {
        form := form.(expectation := step.expectation);
      }
      if step.extract.Some? {
        form := form.(extract := step.extract);
      }
      drawerVisible := true;
    }

    /** Closes the drawer without saving. */
    method HandleClose()
      modifies this
      ensures !drawerVisible && editingIndex == old(editingIndex) && form == old(form)
    {
      drawerVisible := false;
    }

    /** Removes the step at `index` from a copy of the list (`splice(index, 1)`). */
    method HandleDelete(value: seq<Step>, index: nat) returns (emitted: seq<Step>)
      ensures emitted == Lists.RemoveAt(value, index)
    {
      emitted := value;
      if index < |emitted| {
        emitted := emitted[..index] + emitted[index + 1..];
      }
    }

    /**
     * Moves the step at `index` one place up (`direction` -1) or down (+1) by
     * exchanging it with its neighbour; a target outside the list does nothing.
     */
    method HandleMove(value: seq<Step>, index: nat, direction: int) returns (emitted: Option<seq<Step>>)
      requires index < |value|
      ensures var target := index + direction;
        if target < 0 || target >= |value| then emitted == None
        else emitted == Some(Lists.Swap(value, index, target))
    {
      var newValue := new Step[|value|](i requires 0 <= i < |value| => value[i]);
      var targetIndex := index + direction;
      if targetIndex < 0 || targetIndex >= newValue.Length {
        return None;
      }
      assert newValue[..] == value;
      var temp := newValue[index];
      newValue[index] := newValue[targetIndex];
      newValue[targetIndex] := temp;
      assert forall k :: 0 <= k < |value| ==> newValue[k] == Lists.Swap(value, index, targetIndex)[k];
      emitted := Some(newValue[..]);
    }

    /**
     * Saves the drawer. `validated` is what `validateFields()` resolves to over
     * the fields registered in `form` (`None` when a rule rejects them, which
     * changes nothing); EditThenSave follows the case where it is `form` itself. The headers object is rebuilt from
     * the rows, the body text coerced, and the step replaces the edited
     * position or is appended.
     */
    method HandleSave(c: Codec, value: seq<Step>, validated: Option<FormValues>) returns (emitted: Option<seq<Step>>)
      requires editingIndex < |value|
      modifies this
      ensures validated.None? ==> emitted == None && unchanged(this)
      ensures validated.Some? ==>
        var f := validated.value;
        && emitted == Some(SaveStep(value, old(editingIndex), StepFromForm(c, f, FromEntries(RowPairs(f.headersList)))))
        && !drawerVisible && editingIndex == old(editingIndex) && form == old(form)
    {
      if validated.None? {
        return None;
      }
      var values := validated.value;
      var headers := RowsToHeaders(values.headersList);
      var body := CoerceBody(c, values.bodyString);
      var newStep := Step(values.name, values.httpMethod, values.url, headers, body,
                          values.condition, values.expectation, values.extract);
      var newValue := value;
      if editingIndex > -1 {
        newValue := newValue[editingIndex := newStep];
      } else {
        newValue := newValue + [newStep];
      }
      emitted := Some(newValue);
      drawerVisible := false;
    }
  }

  /** Moving a step and moving it back restores the list; a move never loses or duplicates a step. */
  lemma MoveIsReversible(value: seq<Step>, index: nat, direction: int)
    requires index < |value| && 0 <= index + direction < |value|
    ensures Lists.Swap(Lists.Swap(value, index, index + direction), index + direction, index) == value
    ensures multiset(Lists.Swap(value, index, index + direction)) == multiset(value)
  {
    Lists.SwapPermutes(value, index, index + direction);
  }

  /** Deleting keeps the other steps in their relative order and drops exactly one. */
  lemma DeleteKeepsOrder(value: seq<Step>, index: nat)
    requires index < |value|
    ensures Lists.RemoveAt(value, index) == value[..index] + value[index + 1..]
    ensures multiset(Lists.RemoveAt(value, index)) + multiset{value[index]} == multiset(value)
  {
    Lists.RemoveAtMultiset(value, index);
  }

  /**
   * Editing a step that carries a condition, an expectation and an extract
   * list, and saving the form unchanged, writes the same step back in place
   * (for bodies that `Steps.BodyRoundTrip` restores), whatever the form held.
   */
  lemma EditThenSave(c: Codec, before: FormValues, value: seq<Step>, index: nat)
    requires RoundTrips(c) && Bracketed(c) && index < |value| && CarriesAllKeys(value[index])
    requires var b := value[index].body;
      !(b.Some? && b.value.JStr? && LooksLikeJson(b.value.s) && c.parse(b.value.s).Some?)
    ensures var f := MergedEditForm(c, before, value[index]);
      SaveStep(value, index, StepFromForm(c, f, FromEntries(RowPairs(f.headersList)))) == value
  {
    MergedEditFormOfFullStep(c, before, value[index]);
    EditSaveRoundTrip(c, value[index]);
  }

  /**
   * A step without an expectation, edited and saved unchanged, comes back
   * with the expectation the form held before; on a form that was reset
   * (or never used) that is `{type: 'json'}`, which fails every non-null
   * response (`FlowEngine.DefaultExpectFails`).
   */
  lemma EditAddsStaleExpect(c: Codec, before: FormValues, step: Step)
    requires step.expectation.None?
    ensures var f := MergedEditForm(c, before, step);
      StepFromForm(c, f, FromEntries(RowPairs(f.headersList))).expectation == before.expectation
    ensures var f := MergedEditForm(c, EmptyForm(), step);
      var saved := StepFromForm(c, f, FromEntries(RowPairs(f.headersList)));
      saved.expectation == Some(Expect("json", "", JNull)) && saved != step
  {
  }
}
