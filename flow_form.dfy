/**
 * The second-generation flow editor: a form whose `steps` field is a form
 * list rendered as draggable items. The form list gives every position a
 * key that travels with its value when items are moved or removed; dragging
 * resolves the dragged and the target key to positions and issues one move.
 *
 * List operations (move, remove, editing an item) notify the page through
 * `onValuesChange`, which passes `steps || []` on; `setFieldsValue`, which
 * `addStep` uses, does not notify. Each method returns what the page
 * receives, `None` when it is not called.
 */
module FlowForm {
  import opened Wrappers
  import opened JsonValues
  import Steps
  import Strings
  import Lists

  /** The step `addStep` appends when `n` steps exist. */
  function NewStep(n: nat): Json {
    JObj([("name", JStr(Steps.StepName(n))), ("method", JStr("GET")), ("url", JStr("")),
          ("headers", JObj([])), ("body", JNull)])
  }

  class FlowEditor {
    /** The `steps` field; `None` when it holds null. */
    var steps: Option<seq<Json>>
    /** The form list's key for each position. */
    var keys: seq<nat>
    /** The next key the form list hands out. */
    var nextKey: nat

    /** The list the form renders: `steps || []`. */
    function Items(): seq<Json>
      reads this
    {
      steps.GetOr([])
    }

    /** One key per item, no key twice, every key already handed out. */
    predicate Valid()
      reads this
    {
      && |keys| == |Items()|
      && Lists.Distinct(keys)
      && forall i :: 0 <= i < |keys| ==> keys[i] < nextKey
    }

    /** The editor opened on `value` (null is `None`); positions are keyed 0, 1, 2, ... */
    constructor (value: Option<seq<Json>>)
      ensures Valid() && steps == value
      ensures keys == seq(|value.GetOr([])|, i requires 0 <= i < |value.GetOr([])| => i)
    {
      steps := value;
      var n := |value.GetOr([])|;
      keys := seq(n, i requires 0 <= i < n => i);
      nextKey := n;
    }

    /** The page is told `steps || []`. */
    function Emitted(): (r: seq<Json>)
      reads this
      ensures steps.None? ==> r == []
    {
      Items()
    }

    /**
     * `addStep`: appends `step_{n+1}` (GET, empty url, no headers, null body)
     * through `setFieldsValue`, which gives it a fresh key and notifies no one.
     */
    method AddStep() returns (emitted: Option<seq<Json>>)
      requires Valid()
      modifies this
      ensures Valid()
      ensures steps == Some(old(Items()) + [NewStep(|old(Items())|)])
      ensures keys == old(keys) + [old(nextKey)]
      ensures emitted == None
    {
      var current := Items();
      steps := Some(current + [NewStep(|current|)]);
      keys := keys + [nextKey];
      nextKey := nextKey + 1;
      emitted := None;
    }

    /** The form list's `move(from, to)`: a no-op for equal or out-of-range indexes. */
    method Move(from: int, to: int) returns (emitted: Option<seq<Json>>)
      requires Valid()
      modifies this
      ensures Valid()
      ensures Items() == Lists.Move(old(Items()), from, to)
      ensures keys == Lists.Move(old(keys), from, to)
      ensures nextKey == old(nextKey)
      ensures from == to || !(0 <= from < |old(Items())| && 0 <= to < |old(Items())|) ==>
                emitted == None && unchanged(this)
      ensures from != to && 0 <= from < |old(Items())| && 0 <= to < |old(Items())| ==>
                emitted == Some(Items())
    {
      var n := |Items()|;
      if from == to || from < 0 || from >= n || to < 0 || to >= n {
        return None;
      }
      Lists.MoveDistinct(keys, from, to);
      forall i | 0 <= i < n
        ensures Lists.Move(keys, from, to)[i] < nextKey
      {
        Lists.MoveAt(keys, from, to, i);
      }
      keys := Lists.Move(keys, from, to);
      steps := Some(Lists.Move(Items(), from, to));
      emitted := Some(Items());
    }

    /** The form list's `remove(index)`, called with a rendered field's own position. */
    method Remove(index: nat) returns (emitted: Option<seq<Json>>)
      requires Valid() && index < |Items()|
      modifies this
      ensures Valid()
      ensures Items() == Lists.RemoveAt(old(Items()), index)
      ensures keys == Lists.RemoveAt(old(keys), index)
      ensures nextKey == old(nextKey)
      ensures emitted == Some(Items())
    {
      Lists.RemoveAtDistinct(keys, index);
      keys := Lists.RemoveAt(keys, index);
      steps := Some(Lists.RemoveAt(Items(), index));
      emitted := Some(Items());
    }

    /** An edit inside the item at `index` (the step forms). */
    method EditItem(index: nat, item: Json) returns (emitted: Option<seq<Json>>)
      requires Valid() && index < |Items()|
      modifies this
      ensures Valid()
      ensures Items() == old(Items())[index := item] && keys == old(keys) && nextKey == old(nextKey)
      ensures emitted == Some(Items())
    {
      steps := Some(Items()[index := item]);
      emitted := Some(Items());
    }

    /**
     * The drag end handler: dropping an item on itself does nothing; otherwise
     * the dragged and the target keys are looked up among the rendered keys
     * and exactly one move between those positions is issued (`moved`).
     */
    method HandleDragEnd(active: nat, over: nat) returns (moved: Option<(int, int)>, emitted: Option<seq<Json>>)
      requires Valid()
      modifies this
      ensures Valid()
      ensures active == over ==> moved == None && emitted == None && unchanged(this)
      ensures active != over ==>
        && moved == Some((Lists.FindIndex(old(keys), active), Lists.FindIndex(old(keys), over)))
        && Items() == Lists.Move(old(Items()), moved.value.0, moved.value.1)
        && keys == Lists.Move(old(keys), moved.value.0, moved.value.1)
      ensures nextKey == old(nextKey)
      ensures active != over ==>
        var (o, n) := moved.value;
        emitted == (if o != n && 0 <= o < |old(Items())| && 0 <= n < |old(Items())| then Some(Items()) else None)
    {
      if active == over {
        return None, None;
      }
      var oldIndex := Lists.FindIndex(keys, active);
      var newIndex := Lists.FindIndex(keys, over);
      emitted := Move(oldIndex, newIndex);
      moved := Some((oldIndex, newIndex));
    }
  }

  /**
   * Keys travel with their items: after any move, the key and the item found
   * at a position both come from the same earlier position.
   */
  lemma KeysFollowItems(items: seq<Json>, keys: seq<nat>, from: int, to: int, i: int)
    requires |items| == |keys| && 0 <= i < |items|
    ensures var src := Lists.MoveSource(|items|, from, to, i);
      && 0 <= src < |items|
      && Lists.Move(items, from, to)[i] == items[src]
      && Lists.Move(keys, from, to)[i] == keys[src]
  {
    Lists.MoveAt(items, from, to, i);
    Lists.MoveAt(keys, from, to, i);
  }

  /**
   * Dragging the item keyed `active` onto the item keyed `over` leaves the
   * dragged item, still under its key, at the position `over` had.
   */
  lemma DragLandsOnTarget(items: seq<Json>, keys: seq<nat>, active: nat, over: nat)
    requires |items| == |keys| && Lists.Distinct(keys)
    requires active in keys && over in keys && active != over
    ensures var o := Lists.FindIndex(keys, active);
            var n := Lists.FindIndex(keys, over);
      && Lists.Move(keys, o, n)[n] == active
      && Lists.Move(items, o, n)[n] == items[o]
  {
  }

  /** A drag involving a key that is not rendered moves nothing. */
  lemma DragUnknownKey(items: seq<Json>, keys: seq<nat>, active: nat, over: nat)
    requires active !in keys || over !in keys
    ensures Lists.Move(items, Lists.FindIndex(keys, active), Lists.FindIndex(keys, over)) == items
  {
  }

  /** Removing a rendered field removes exactly that field's key and its item. */
  lemma RemoveTargetsOwnField(items: seq<Json>, keys: seq<nat>, index: nat)
    requires |items| == |keys| && Lists.Distinct(keys) && index < |keys|
    ensures keys[index] !in Lists.RemoveAt(keys, index)
    ensures forall i :: 0 <= i < |keys| && i != index ==> keys[i] in Lists.RemoveAt(keys, index)
  {
    var r := Lists.RemoveAt(keys, index);
    forall i | 0 <= i < |keys| && i != index
      ensures keys[i] in r
    {
      if i < index {
        assert r[i] == keys[i];
      } else {
        assert r[i - 1] == keys[i];
      }
    }
  }

  /** `addStep` names the new step after the count before it: a step added to two is `step_3`. */
  lemma AddStepName()
    ensures NewStep(2).fields[0] == ("name", JStr("step_3"))
  {
    assert Strings.NatToString(3) == [Strings.DigitChar(3)] == "3";
    assert Steps.StepName(2) == "step_" + "3" == "step_3";
    assert NewStep(2).fields[0] == ("name", JStr(Steps.StepName(2)));
  }

  /** Steps added one after another get distinct names. */
  lemma AddedNamesDistinct(m: nat, n: nat)
    requires m != n
    ensures NewStep(m).fields[0] != NewStep(n).fields[0]
  {
    if NewStep(m).fields[0] == NewStep(n).fields[0] {
      Steps.StepNameInjective(m, n);
    }
  }
}
