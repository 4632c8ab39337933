/**
 * The stacks-and-queues tab: a stack and a queue of strings, each fed from a
 * text box. Only the trimmed text is stored, and only when it is not blank;
 * popping and dequeueing do nothing on an empty structure.
 */
module StacksQueuesTab {

  import opened Options
  import opened Builtins

  /** Every stored item is the non-empty, trimmed text of a box. */
  predicate Items(xs: seq<string>) {
    forall k :: 0 <= k < |xs| ==> xs[k] != "" && IsTrimmed(xs[k])
  }

  /** The stack after pushing the text `input`. */
  function Pushed(stack: seq<string>, input: string): seq<string> {
    var item := Trim(input);
    if item != "" then stack + [item] else stack
  }

  /** The stack after a pop. */
  function Popped(stack: seq<string>): seq<string> {
    if |stack| > 0 then stack[..|stack| - 1] else stack
  }

  /** The queue after enqueueing the text `input`. */
  function Enqueued(queue: seq<string>, input: string): seq<string> {
    var item := Trim(input);
    if item != "" then queue + [item] else queue
  }

  /** The queue after a dequeue. */
  function Dequeued(queue: seq<string>): seq<string> {
    if |queue| > 0 then queue[1..] else queue
  }

  /** `x || 'None'` for a JavaScript element read: the element when it is a non-empty string, otherwise "None". */
  function OrNone(x: Option<string>): string {
    if x.Some? && x.value != "" then x.value else "None"
  }

  /** `xs[i]`, which is `undefined` outside the sequence. */
  function ElementAt(xs: seq<string>, i: int): Option<string> {
    if 0 <= i < |xs| then Some(xs[i]) else None
  }

  /** The "Top Element" label of the stack. */
  function TopLabel(stack: seq<string>): string {
    OrNone(ElementAt(stack, |stack| - 1))
  }

  /** The "Front" label of the queue. */
  function FrontLabel(queue: seq<string>): string {
    OrNone(ElementAt(queue, 0))
  }

  /** The "Rear" label of the queue. */
  function RearLabel(queue: seq<string>): string {
    OrNone(ElementAt(queue, |queue| - 1))
  }

  /** The component's state, one field per `useState` (the animation flag is left out). */
  class StacksQueuesTab {
    var stack: seq<string>
    var stackInput: string
    var queue: seq<string>
    var queueInput: string

    /** Neither structure holds a blank or untrimmed item. */
    ghost predicate Valid()
      reads this
    {
      Items(stack) && Items(queue)
    }

    /** Both structures and both boxes start empty. */
    constructor()
      ensures Valid()
      ensures stack == [] && stackInput == "" && queue == [] && queueInput == ""
    {
      stack := [];
      stackInput := "";
      queue := [];
      queueInput := "";
    }

    /** Typing into the stack's box. */
    method SetStackInput(value: string)
      modifies this`stackInput
      ensures stackInput == value
    {
      stackInput := value;
    }

    /** Typing into the queue's box. */
    method SetQueueInput(value: string)
      modifies this`queueInput
      ensures queueInput == value
    {
      queueInput := value;
    }

    /**
     * `handlePush`: a box whose trimmed text is not empty puts that text on
     * top of the stack and is cleared; a blank box changes nothing.
     */
    method HandlePush()
      requires Valid()
      modifies this`stack, this`stackInput
      ensures Valid()
      ensures stack == Pushed(old(stack), old(stackInput))
      ensures Trim(old(stackInput)) != "" ==> stack == old(stack) + [Trim(old(stackInput))] && stackInput == ""
      ensures Trim(old(stackInput)) == "" ==> stack == old(stack) && stackInput == old(stackInput)
    {
      var item := Trim(stackInput);
      if item != "" {
        ItemsAppend(stack, item);
        stack := stack + [item];
        stackInput := "";
      }
    }

    /** `handlePop`: removes the top item; an empty stack (the button is disabled) is left alone. */
    method HandlePop()
      requires Valid()
      modifies this`stack
      ensures Valid()
      ensures stack == Popped(old(stack))
      ensures |old(stack)| > 0 ==> stack == old(stack)[..|old(stack)| - 1]
      ensures |old(stack)| == 0 ==> stack == old(stack)
    {
      if |stack| > 0 {
        stack := stack[..|stack| - 1];
      }
    }

    /**
     * `handleEnqueue`: a box whose trimmed text is not empty puts that text
     * at the rear of the queue and is cleared; a blank box changes nothing.
     */
    method HandleEnqueue()
      requires Valid()
      modifies this`queue, this`queueInput
      ensures Valid()
      ensures queue == Enqueued(old(queue), old(queueInput))
      ensures Trim(old(queueInput)) != "" ==> queue == old(queue) + [Trim(old(queueInput))] && queueInput == ""
      ensures Trim(old(queueInput)) == "" ==> queue == old(queue) && queueInput == old(queueInput)
    {
      var item := Trim(queueInput);
      if item != "" {
        ItemsAppend(queue, item);
        queue := queue + [item];
        queueInput := "";
      }
    }

    /** `handleDequeue`: removes the front item; an empty queue (the button is disabled) is left alone. */
    method HandleDequeue()
      requires Valid()
      modifies this`queue
      ensures Valid()
      ensures queue == Dequeued(old(queue))
      ensures |old(queue)| > 0 ==> queue == old(queue)[1..]
      ensures |old(queue)| == 0 ==> queue == old(queue)
    {
      if |queue| > 0 {
        queue := queue[1..];
      }
    }
  }

  /** Appending a non-empty trimmed text keeps every item non-empty and trimmed. */
  lemma ItemsAppend(xs: seq<string>, item: string)
    requires Items(xs) && item != "" && IsTrimmed(item)
    ensures Items(xs + [item])
  {
  }

  /** Pushing a text that is not blank and then popping gives the stack back, and the pushed text is on top in between. */
  lemma PushThenPop(stack: seq<string>, input: string)
    requires Trim(input) != ""
    ensures Popped(Pushed(stack, input)) == stack
    ensures TopLabel(Pushed(stack, input)) == Trim(input)
  {
    assert (stack + [Trim(input)])[..|stack|] == stack;
  }

  /** A stored stack shows "None" at the top only when it is empty or its top item is the text "None". */
  lemma TopLabelShowsTop(stack: seq<string>)
    requires Items(stack)
    ensures stack == [] ==> TopLabel(stack) == "None"
    ensures stack != [] ==> TopLabel(stack) == stack[|stack| - 1]
  {
  }

  /** A stored queue shows its first and last items as front and rear, and "None" for both when empty. */
  lemma QueueLabelsShowEnds(queue: seq<string>)
    requires Items(queue)
    ensures queue == [] ==> FrontLabel(queue) == "None" && RearLabel(queue) == "None"
    ensures queue != [] ==> FrontLabel(queue) == queue[0] && RearLabel(queue) == queue[|queue| - 1]
  {
  }

  /** One click on the queue's buttons: enqueue the given box text, or dequeue. */
  datatype QueueAction = Enqueue(input: string) | Dequeue

  /** The texts a run of actions admits into the queue, in order. */
  function Admitted(actions: seq<QueueAction>): seq<string> {
    if actions == [] then []
    else
      var rest := Admitted(actions[1..]);
      match actions[0]
      case Enqueue(input) => if Trim(input) != "" then [Trim(input)] + rest else rest
      case Dequeue => rest
  }

  /** Running `actions` from `queue`: the items that leave, in the order they leave, and the queue left over. */
  function Run(queue: seq<string>, actions: seq<QueueAction>): (seq<string>, seq<string>)
    decreases |actions|
  {
    if actions == [] then ([], queue)
    else match actions[0]
      case Enqueue(input) => Run(Enqueued(queue, input), actions[1..])
      case Dequeue =>
        var (departed, left) := Run(Dequeued(queue), actions[1..]);
        (if |queue| > 0 then [queue[0]] + departed else departed, left)
  }

  /**
   * First in, first out: whatever the actions, the items that leave followed
   * by those left over are the starting queue followed by the admitted texts.
   */
  lemma {:induction false} QueueIsFifo(queue: seq<string>, actions: seq<QueueAction>)
    ensures Run(queue, actions).0 + Run(queue, actions).1 == queue + Admitted(actions)
    decreases |actions|
  {
    if actions == [] {
      assert queue + [] == queue;
    } else {
      var rest := actions[1..];
      match actions[0]
      case Enqueue(input) =>
        QueueIsFifo(Enqueued(queue, input), rest);
        EnqueueStep(queue, input, rest);
      case Dequeue =>
        QueueIsFifo(Dequeued(queue), rest);
        DequeueStep(queue, rest);
    }
  }

  lemma EnqueueStep(queue: seq<string>, input: string, rest: seq<QueueAction>)
    requires Run(Enqueued(queue, input), rest).0 + Run(Enqueued(queue, input), rest).1 == Enqueued(queue, input) + Admitted(rest)
    ensures Run(queue, [Enqueue(input)] + rest).0 + Run(queue, [Enqueue(input)] + rest).1 == queue + Admitted([Enqueue(input)] + rest)
  {
    var actions := [Enqueue(input)] + rest;
    assert actions[1..] == rest;
    var item := Trim(input);
    if item != "" {
      Associative(queue, [item], Admitted(rest));
    }
  }

  lemma DequeueStep(queue: seq<string>, rest: seq<QueueAction>)
    requires Run(Dequeued(queue), rest).0 + Run(Dequeued(queue), rest).1 == Dequeued(queue) + Admitted(rest)
    ensures Run(queue, [Dequeue] + rest).0 + Run(queue, [Dequeue] + rest).1 == queue + Admitted([Dequeue] + rest)
  {
    var actions := [Dequeue] + rest;
    assert actions[1..] == rest;
    if |queue| > 0 {
      var r := Run(queue[1..], rest);
      Associative([queue[0]], r.0, r.1);
      Associative([queue[0]], queue[1..], Admitted(rest));
      HeadTail(queue);
    }
  }

  lemma Associative(a: seq<string>, b: seq<string>, c: seq<string>)
    ensures a + b + c == a + (b + c)
  {
  }

  lemma HeadTail(s: seq<string>)
    requires |s| > 0
    ensures [s[0]] + s[1..] == s
  {
  }
}
