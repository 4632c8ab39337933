/**
 * The serverless GraphQL API: an in-memory, append-only list of saved quiz
 * results with a counter that hands out their ids, and a constant table of
 * lessons looked up by topic.
 */
module Api {

  import opened Options

  /** The `QuizResultInput` a client sends to `saveQuizResult`. */
  datatype QuizResultInput = QuizResultInput(topic: string, score: int, totalQuestions: int, isPerfectScore: bool)

  /** A stored `QuizResult`: the input's fields plus an id and a timestamp. */
  datatype QuizResult = QuizResult(id: string, topic: string, score: int, totalQuestions: int, timestamp: string, isPerfectScore: bool)

  /** A `LessonContent` record. */
  datatype Lesson = Lesson(id: string, topic: string, title: string, content: string, spaceExample: string, keyPoints: seq<string>)

  /** The decimal digit for `d`. */
  function Digit(d: int): char
    requires 0 <= d < 10
  {
    ['0', '1', '2', '3', '4', '5', '6', '7', '8', '9'][d]
  }

  /** The value of a decimal digit character, or -1 for any other character. */
  function DigitValue(c: char): int
  {
    if '0' <= c <= '9' then (c as int) - ('0' as int) else -1
  }

  /** `String(n)` for a natural number: its decimal digits, most significant first, without leading zeros. */
  function DecimalString(n: nat): (s: string)
    ensures |s| >= 1
    ensures forall k :: 0 <= k < |s| ==> 0 <= DigitValue(s[k]) < 10
    ensures s[0] == '0' <==> n == 0
  {
    if n < 10 then [Digit(n)] else DecimalString(n / 10) + [Digit(n % 10)]
  }

  /** The number a string of decimal digits stands for. */
  function ParseDecimal(s: string): int
  {
    if s == [] then 0 else 10 * ParseDecimal(s[..|s| - 1]) + DigitValue(s[|s| - 1])
  }

  /** Reading back the decimal string of `n` gives `n`. */
  lemma {:induction false} ParseDecimalString(n: nat)
    ensures ParseDecimal(DecimalString(n)) == n
  {
    var s := DecimalString(n);
    if n < 10 {
      assert s[..0] == [];
    } else {
      ParseDecimalString(n / 10);
      assert s[..|s| - 1] == DecimalString(n / 10);
    }
  }

  /** Different numbers get different decimal strings, so ids never collide. */
  lemma DecimalStringInjective(m: nat, n: nat)
    requires m != n
    ensures DecimalString(m) != DecimalString(n)
  {
    ParseDecimalString(m);
    ParseDecimalString(n);
  }

  /** The module-level `quizResults` array and `nextId` counter behind the resolvers. */
  class ResultStore {
    var quizResults: seq<QuizResult>
    var nextId: int

    /** The `k`-th stored result (from 0) carries id `String(k + 1)`, and `nextId` is one past the last id handed out. */
    ghost predicate Valid()
      reads this
    {
      && nextId == |quizResults| + 1
      && forall k :: 0 <= k < |quizResults| ==> quizResults[k].id == DecimalString(k + 1)
    }

    /** The store as the module starts it: no results, next id 1. */
    constructor()
      ensures Valid()
      ensures quizResults == [] && nextId == 1
    {
      quizResults := [];
      nextId := 1;
    }

    /**
     * The `saveQuizResult` resolver: the input's fields, the next id and the
     * given timestamp make one new result, which goes at the end of the
     * list; nothing stored before is touched and the counter moves on by one.
     */
    method SaveQuizResult(input: QuizResultInput, timestamp: string) returns (result: QuizResult)
      requires Valid()
      modifies this
      ensures Valid()
      ensures result == QuizResult(DecimalString(old(nextId)), input.topic, input.score, input.totalQuestions, timestamp, input.isPerfectScore)
      ensures quizResults == old(quizResults) + [result]
      ensures nextId == old(nextId) + 1
    {
      result := QuizResult(DecimalString(nextId), input.topic, input.score, input.totalQuestions, timestamp, input.isPerfectScore);
      nextId := nextId + 1;
      quizResults := quizResults + [result];
    }

    /**
     * The `quizResults` query: the stored list, oldest first. Read as
     * numbers, the ids count up from 1 in storage order, so they are
     * pairwise distinct.
     */
    method QuizResults() returns (results: seq<QuizResult>)
      requires Valid()
      ensures results == quizResults
      ensures forall k :: 0 <= k < |results| ==> ParseDecimal(results[k].id) == k + 1
      ensures forall i, j :: 0 <= i < j < |results| ==> results[i].id != results[j].id
    {
      results := quizResults;
      forall k | 0 <= k < |results| ensures ParseDecimal(results[k].id) == k + 1 {
        ParseDecimalString(k + 1);
      }
      forall i, j | 0 <= i < j < |results| ensures results[i].id != results[j].id {
        DecimalStringInjective(i + 1, j + 1);
      }
    }
  }

  /** Every lesson lists this many key points. */
  const KeyPointCount: nat := 4

  /** The keys of the lesson table, in the order they are written. */
  const LessonTopics: seq<string> := ["arrays", "stacks", "trees", "sorting", "bigO"]

  /** The `id` of the lesson filed under `key`: the lessons are numbered "1" to "5" in table order. */
  function LessonId(key: string): (id: string)
    ensures forall k :: 0 <= k < |LessonTopics| && LessonTopics[k] == key ==> id == DecimalString(k + 1)
  {
    if key == "arrays" then "1"
    else if key == "stacks" then "2"
    else if key == "trees" then "3"
    else if key == "sorting" then "4"
    else if key == "bigO" then "5"
    else ""
  }

  /** The `topic` field of the lesson filed under `key`: always the key itself. */
  function LessonTopicField(key: string): (topic: string)
    ensures key in LessonTopics ==> topic == key
  {
    if key == "arrays" then "arrays"
    else if key == "stacks" then "stacks"
    else if key == "trees" then "trees"
    else if key == "sorting" then "sorting"
    else if key == "bigO" then "bigO"
    else ""
  }

  /** The `title` of the lesson filed under `key`. */
  function LessonTitle(key: string): string
  {
    if key == "arrays" then "Arrays & Lists"
    else if key == "stacks" then "Stacks & Queues"
    else if key == "trees" then "Trees & Graphs"
    else if key == "sorting" then "Sorting Algorithms"
    else if key == "bigO" then "Big O Notation"
    else ""
  }

  /** The `content` of the lesson filed under `key`. */
  function LessonText(key: string): string
  {
    if key == "arrays" then "Arrays are like spacecraft hangars - they store multiple items in a sequential, indexed order. Each hangar bay (index) holds one spacecraft (element)."
    else if key == "stacks" then "Stacks follow LIFO (Last In, First Out) like stacking rocket stages. Queues follow FIFO (First In, First Out) like spacecraft in a launch queue."
    else if key == "trees" then "Trees are hierarchical structures like mission command chains. Graphs represent networks like satellite communication systems."
    else if key == "sorting" then "Sorting algorithms organize data efficiently, like arranging spacecraft by launch date or planets by distance from the sun."
    else if key == "bigO" then "Big O measures algorithm efficiency like measuring fuel consumption for space missions. It describes how performance scales with input size."
    else ""
  }

  /** The `spaceExample` of the lesson filed under `key`. */
  function SpaceExample(key: string): string
  {
    if key == "arrays" then "Think of the International Space Station modules arranged in a line. Each module has a specific position, and you can access any module directly by knowing its position number."
    else if key == "stacks" then "Rocket stage separation: The top stage (last added) is the first to separate. Mission control queue: First spacecraft scheduled is first to launch."
    else if key == "trees" then "NASA organization chart (tree) vs. satellite network connections (graph). Each satellite can communicate with multiple others, forming a complex network."
    else if key == "sorting" then "Sorting planets by distance from sun: Mercury, Venus, Earth, Mars... Each algorithm takes a different approach, some faster for nearly-sorted data."
    else if key == "bigO" then "Finding a specific star: O(1) if you know coordinates, O(n) if you search sequentially, O(log n) if you use binary search of sorted catalog."
    else ""
  }

  /** Key point `j` (from 0) of the lesson filed under `key`. */
  function KeyPoint(key: string, j: int): string
  {
    if key == "arrays" && j == 0 then "Fixed or dynamic size collection"
    else if key == "arrays" && j == 1 then "Zero-based indexing"
    else if key == "arrays" && j == 2 then "O(1) access time by index"
    else if key == "arrays" && j == 3 then "O(n) insertion/deletion in middle"
    else if key == "stacks" && j == 0 then "Stack: LIFO structure"
    else if key == "stacks" && j == 1 then "Queue: FIFO structure"
    else if key == "stacks" && j == 2 then "O(1) push/pop operations"
    else if key == "stacks" && j == 3 then "Used in depth-first and breadth-first searches"
    else if key == "trees" && j == 0 then "Tree: Hierarchical, no cycles"
    else if key == "trees" && j == 1 then "Binary tree: Max 2 children per node"
    else if key == "trees" && j == 2 then "Graph: Nodes with edges"
    else if key == "trees" && j == 3 then "Used for navigation systems"
    else if key == "sorting" && j == 0 then "Bubble Sort: O(n\U{00B2}) - simple but slow"
    else if key == "sorting" && j == 1 then "Quick Sort: O(n log n) - fast, divide & conquer"
    else if key == "sorting" && j == 2 then "Merge Sort: O(n log n) - stable, predictable"
    else if key == "sorting" && j == 3 then "Choice depends on data characteristics"
    else if key == "bigO" && j == 0 then "O(1): Constant - same time regardless of size"
    else if key == "bigO" && j == 1 then "O(log n): Logarithmic - binary search"
    else if key == "bigO" && j == 2 then "O(n): Linear - check each element once"
    else if key == "bigO" && j == 3 then "O(n\U{00B2}): Quadratic - nested loops"
    else ""
  }

  /**
   * The `lessonContent` resolver: the lesson filed under `topic`, or null.
   * There is a lesson for exactly the five keys of the table (none for the
   * practice quiz), filed under its own topic with four key points.
   */
  function LessonContent(topic: string): (lesson: Option<Lesson>)
    ensures lesson.Some? <==> topic in LessonTopics
    ensures lesson.Some? ==> lesson.value.topic == topic && |lesson.value.keyPoints| == KeyPointCount
    ensures forall k :: 0 <= k < |LessonTopics| && LessonTopics[k] == topic ==> lesson.Some? && lesson.value.id == DecimalString(k + 1)
  {
    if topic in LessonTopics then
      Some(Lesson(LessonId(topic), LessonTopicField(topic), LessonTitle(topic), LessonText(topic), SpaceExample(topic),
                  seq(KeyPointCount, j => KeyPoint(topic, j))))
    else None
  }
}
