/**
 * The arrays-and-lists tab: a comma-separated text box shown as array
 * cells, and a linked list of nodes that can be appended to and removed
 * from by id.
 */
module ArraysTab {

  import opened Builtins

  /** Every field of `fields`, trimmed, in order. */
  function TrimAll(fields: seq<string>): (r: seq<string>)
    ensures |r| == |fields| && forall k :: 0 <= k < |r| ==> r[k] == Trim(fields[k])
  {
    if fields == [] then [] else [Trim(fields[0])] + TrimAll(fields[1..])
  }

  /** `item => item`: a string passes `filter` when it is not empty. */
  predicate NonEmpty(item: string) {
    item != ""
  }

  /**
   * `arrayInput.split(',').map(item => item.trim()).filter(item => item)`:
   * the comma-separated fields of `input`, each trimmed, blank ones dropped,
   * in their order. Every element is non-empty, trimmed, free of commas and
   * the trimmed form of one of the fields.
   */
  function ParseList(input: string): (elements: seq<string>)
    ensures forall k :: 0 <= k < |elements| ==> elements[k] != "" && IsTrimmed(elements[k]) && ',' !in elements[k]
    ensures forall e :: e in elements ==> exists f :: f in Split(input, ',') && e == Trim(f)
  {
    var fields := Split(input, ',');
    var elements := Filter(TrimAll(fields), NonEmpty);
    ElementsAreTrimmedFields(fields, elements);
    elements
  }

  lemma ElementsAreTrimmedFields(fields: seq<string>, elements: seq<string>)
    requires forall k :: 0 <= k < |fields| ==> ',' !in fields[k]
    requires elements == Filter(TrimAll(fields), NonEmpty)
    ensures forall k :: 0 <= k < |elements| ==> elements[k] != "" && IsTrimmed(elements[k]) && ',' !in elements[k]
    ensures forall e :: e in elements ==> exists f :: f in fields && e == Trim(f)
  {
    var trimmed := TrimAll(fields);
    forall k | 0 <= k < |elements| ensures IsTrimmed(elements[k]) && ',' !in elements[k] {
      var e := elements[k];
      assert e in trimmed;
      var i :| 0 <= i < |trimmed| && trimmed[i] == e;
      assert ',' !in fields[i];
    }
    forall e | e in elements ensures exists f :: f in fields && e == Trim(f) {
      var i :| 0 <= i < |trimmed| && trimmed[i] == e;
      assert fields[i] in fields;
    }
  }

  lemma TrimAllAppend(a: seq<string>, b: seq<string>)
    ensures TrimAll(a + b) == TrimAll(a) + TrimAll(b)
  {
  }

  /** The text before a comma and the text after it parse on their own, in that order. */
  lemma ParseListConcat(a: string, b: string)
    ensures ParseList(a + [','] + b) == ParseList(a) + ParseList(b)
  {
    SplitAtSeparator(a, b, ',');
    TrimAllAppend(Split(a, ','), Split(b, ','));
    FilterAppend(TrimAll(Split(a, ',')), TrimAll(Split(b, ',')), NonEmpty);
  }

  /** A text without commas is one field: its trimmed form, or nothing when that is blank. */
  lemma ParseListOfField(field: string)
    requires ',' !in field
    ensures ParseList(field) == if Trim(field) == "" then [] else [Trim(field)]
  {
    SplitPrefix(field, "", ',');
    assert field + "" == field;
    assert Split(field, ',') == [field];
    assert TrimAll([field]) == [Trim(field)];
  }

  /**
   * Writing non-empty, trimmed, comma-free elements out with commas and
   * parsing them gives them back; no elements write out as "", which parses
   * to none.
   */
  lemma ParseListOfJoin(elements: seq<string>)
    requires forall k :: 0 <= k < |elements| ==> elements[k] != "" && IsTrimmed(elements[k]) && ',' !in elements[k]
    ensures ParseList(Join(elements, ',')) == elements
  {
    if elements == [] {
      ParseListOfField("");
    } else {
      SplitOfJoin(elements, ',');
      var trimmed := TrimAll(elements);
      assert trimmed == elements;
    }
  }

  /** A node of the linked list: its text and the millisecond clock reading it was made at. */
  datatype ListNode = ListNode(value: string, id: int)

  /**
   * `linkedList.filter(node => node.id !== id)`: the list without its nodes
   * carrying `id`; every other node stays, as often as before and in order.
   */
  function RemoveById(list: seq<ListNode>, id: int): (r: seq<ListNode>)
    ensures |r| <= |list|
    ensures forall k :: 0 <= k < |r| ==> r[k].id != id
    ensures forall n: ListNode :: n.id != id ==> multiset(r)[n] == multiset(list)[n]
    ensures (forall k :: 0 <= k < |list| ==> list[k].id != id) ==> r == list
  {
    var keep := (n: ListNode) => n.id != id;
    var r := Filter(list, keep);
    forall n: ListNode | n.id != id ensures multiset(r)[n] == multiset(list)[n] {
      FilterCount(list, keep, n);
    }
    r
  }

  /** Removing by id from a list built in two parts removes from each part, so the survivors keep their order. */
  lemma RemoveByIdAppend(a: seq<ListNode>, b: seq<ListNode>, id: int)
    ensures RemoveById(a + b, id) == RemoveById(a, id) + RemoveById(b, id)
  {
    FilterAppend(a, b, (n: ListNode) => n.id != id);
  }

  /** Appending a node with a fresh id and removing that id gives the list back. */
  lemma AddThenRemove(list: seq<ListNode>, node: ListNode)
    requires forall k :: 0 <= k < |list| ==> list[k].id != node.id
    ensures RemoveById(list + [node], node.id) == list
  {
    RemoveByIdAppend(list, [node], node.id);
    assert RemoveById([node], node.id) == [];
    assert list + [] == list;
  }

  /** The component's state, one field per `useState`. */
  class ArraysTab {
    var arrayInput: string
    var arrayElements: seq<string>
    var linkedList: seq<ListNode>
    var newNodeValue: string

    /** Every list node holds a non-empty, trimmed text. */
    ghost predicate Valid()
      reads this
    {
      forall k :: 0 <= k < |linkedList| ==> linkedList[k].value != "" && IsTrimmed(linkedList[k].value)
    }

    /** Empty boxes, no cells and no nodes. */
    constructor()
      ensures Valid()
      ensures arrayInput == "" && arrayElements == [] && linkedList == [] && newNodeValue == ""
    {
      arrayInput := "";
      arrayElements := [];
      linkedList := [];
      newNodeValue := "";
    }

    /** Typing into the array box. */
    method SetArrayInput(value: string)
      modifies this`arrayInput
      ensures arrayInput == value
    {
      arrayInput := value;
    }

    /** Typing into the node box. */
    method SetNewNodeValue(value: string)
      modifies this`newNodeValue
      ensures newNodeValue == value
    {
      newNodeValue := value;
    }

    /** `handleArrayVisualize`: the cells become the parsed fields of the array box. */
    method HandleArrayVisualize()
      modifies this`arrayElements
      ensures arrayElements == ParseList(arrayInput)
    {
      arrayElements := ParseList(arrayInput);
    }

    /**
     * `handleAddNode`, with `now` the clock reading `Date.now()`: a node box
     * whose trimmed text is not empty adds a node with that text and id
     * `now` at the end and is cleared; a blank box changes nothing.
     */
    method HandleAddNode(now: int)
      requires Valid()
      modifies this`linkedList, this`newNodeValue
      ensures Valid()
      ensures Trim(old(newNodeValue)) != "" ==>
        linkedList == old(linkedList) + [ListNode(Trim(old(newNodeValue)), now)] && newNodeValue == ""
      ensures Trim(old(newNodeValue)) == "" ==> linkedList == old(linkedList) && newNodeValue == old(newNodeValue)
    {
      var value := Trim(newNodeValue);
      if value != "" {
        linkedList := linkedList + [ListNode(value, now)];
        newNodeValue := "";
      }
    }

    /** `handleRemoveNode`: drops every node that carries `id`. */
    method HandleRemoveNode(id: int)
      requires Valid()
      modifies this`linkedList
      ensures Valid()
      ensures linkedList == RemoveById(old(linkedList), id)
    {
      linkedList := RemoveById(linkedList, id);
    }
  }
}
