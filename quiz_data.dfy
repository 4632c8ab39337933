/**
 * The quiz bank: six five-question quizzes keyed by topic, and the lookup that
 * falls back to the comprehensive practice quiz for an unknown topic.
 *
 * The bank is stored column by column: the numbers of each question (its id
 * and the index of its correct answer), its texts, and the quiz headings are
 * separate lookups by topic key and question position, and `QuestionAt` and
 * `QuizEntry` assemble them into the records the components read.
 */
module QuizData {

  import opened Options

  /** One multiple-choice question; `correctAnswer` is an index into `options`. */
  datatype Question = Question(id: int, question: string, options: seq<string>, correctAnswer: int, explanation: string)

  /** A quiz: its heading, the topic it belongs to and its questions in order. */
  datatype Quiz = Quiz(title: string, topic: string, questions: seq<Question>)

  /** Every quiz has this many questions. */
  const QuestionCount: nat := 5

  /** Every question offers this many options. */
  const OptionCount: nat := 4

  /** The keys of the bank, in the order they are written. */
  const Topics: seq<string> := ["arrays", "stacks", "trees", "sorting", "bigO", "practice"]

  /** The key of the comprehensive quiz used as the fallback. */
  const PracticeKey: string := "practice"

  /** The `k`-th question (from 0) is numbered `k + 1` and has a valid answer among four options. */
  predicate WellFormedQuestion(q: Question, k: int) {
    q.id == k + 1 && |q.options| == OptionCount && 0 <= q.correctAnswer < OptionCount
  }

  /** Five well-formed questions, numbered 1 to 5 in order. */
  predicate WellFormedQuiz(quiz: Quiz) {
    |quiz.questions| == QuestionCount && forall k :: 0 <= k < |quiz.questions| ==> WellFormedQuestion(quiz.questions[k], k)
  }

  /** The `title` of the quiz filed under `key`. */
  function Title(key: string): string
  {
    if key == "arrays" then "Arrays & Lists Quiz"
    else if key == "stacks" then "Stacks & Queues Quiz"
    else if key == "trees" then "Trees & Graphs Quiz"
    else if key == "sorting" then "Sorting Algorithms Quiz"
    else if key == "bigO" then "Big O Notation Quiz"
    else if key == "practice" then "Comprehensive Practice Quiz"
    else ""
  }

  /** The `topic` field of the quiz filed under `key`: always the key itself. */
  function TopicField(key: string): (topic: string)
    ensures key in Topics ==> topic == key
  {
    if key == "arrays" then "arrays"
    else if key == "stacks" then "stacks"
    else if key == "trees" then "trees"
    else if key == "sorting" then "sorting"
    else if key == "bigO" then "bigO"
    else if key == "practice" then "practice"
    else ""
  }

  /** The `id` of question `k` (from 0) of quiz `key`: the questions are numbered 1 to 5 in order. */
  function QuestionId(key: string, k: int): (id: int)
    ensures key in Topics && 0 <= k < QuestionCount ==> id == k + 1
  {
    if key == "arrays" && k == 0 then 1
    else if key == "arrays" && k == 1 then 2
    else if key == "arrays" && k == 2 then 3
    else if key == "arrays" && k == 3 then 4
    else if key == "arrays" && k == 4 then 5
    else if key == "stacks" && k == 0 then 1
    else if key == "stacks" && k == 1 then 2
    else if key == "stacks" && k == 2 then 3
    else if key == "stacks" && k == 3 then 4
    else if key == "stacks" && k == 4 then 5
    else if key == "trees" && k == 0 then 1
    else if key == "trees" && k == 1 then 2
    else if key == "trees" && k == 2 then 3
    else if key == "trees" && k == 3 then 4
    else if key == "trees" && k == 4 then 5
    else if key == "sorting" && k == 0 then 1
    else if key == "sorting" && k == 1 then 2
    else if key == "sorting" && k == 2 then 3
    else if key == "sorting" && k == 3 then 4
    else if key == "sorting" && k == 4 then 5
    else if key == "bigO" && k == 0 then 1
    else if key == "bigO" && k == 1 then 2
    else if key == "bigO" && k == 2 then 3
    else if key == "bigO" && k == 3 then 4
    else if key == "bigO" && k == 4 then 5
    else if key == "practice" && k == 0 then 1
    else if key == "practice" && k == 1 then 2
    else if key == "practice" && k == 2 then 3
    else if key == "practice" && k == 3 then 4
    else if key == "practice" && k == 4 then 5
    else 0
  }

  /** The `correctAnswer` of each question of quiz `key`, in question order: an index among the four options. */
  function AnswerKey(key: string): (answers: seq<int>)
    ensures key in Topics ==> |answers| == QuestionCount
    ensures forall k :: 0 <= k < |answers| ==> 0 <= answers[k] < OptionCount
  {
    if key == "arrays" then [1, 2, 1, 2, 2]
    else if key == "stacks" then [2, 1, 2, 2, 1]
    else if key == "trees" then [1, 3, 1, 1, 2]
    else if key == "sorting" then [2, 1, 1, 2, 2]
    else if key == "bigO" then [1, 2, 0, 0, 2]
    else if key == "practice" then [2, 2, 2, 2, 1]
    else []
  }

  /** The `correctAnswer` of question `k` (from 0) of quiz `key`. */
  function CorrectAnswer(key: string, k: int): (answer: int)
    ensures key in Topics && 0 <= k < QuestionCount ==> 0 <= answer < OptionCount && answer == AnswerKey(key)[k]
  {
    var answers := AnswerKey(key);
    if 0 <= k < |answers| then answers[k] else 0
  }

  /** The `question` text of question `k` of quiz `key`. */
  function QuestionText(key: string, k: int): string
  {
    if key == "arrays" && k == 0 then "If the International Space Station has 16 modules in an array, what index would the last module have?"
    else if key == "arrays" && k == 1 then "What is the time complexity of accessing a spacecraft at a specific hangar position in an array?"
    else if key == "arrays" && k == 2 then "A linked list of satellites is best described as:"
    else if key == "arrays" && k == 3 then "What is the main advantage of a dynamic array over a fixed-size array for storing mission data?"
    else if key == "arrays" && k == 4 then "In a doubly linked list of orbital maneuvers, each node contains:"
    else if key == "stacks" && k == 0 then "Rocket stages separate in LIFO order. If stages are pushed as [1st, 2nd, 3rd], which separates first?"
    else if key == "stacks" && k == 1 then "Spacecraft in a launch queue follow which principle?"
    else if key == "stacks" && k == 2 then "What is the time complexity of push and pop operations on a stack?"
    else if key == "stacks" && k == 3 then "Which data structure would be best for implementing an undo feature in mission planning software?"
    else if key == "stacks" && k == 4 then "In a circular queue of satellite positions with 5 slots, after enqueueing 6 items and dequeueing 3, how many items remain?"
    else if key == "trees" && k == 0 then "In a binary tree representing a mission hierarchy, each node can have maximum how many children?"
    else if key == "trees" && k == 1 then "A satellite communication network where each satellite can connect to multiple others is best represented as:"
    else if key == "trees" && k == 2 then "In a binary search tree of planet distances from the Sun, where would you find Mars if the root is Earth?"
    else if key == "trees" && k == 3 then "What traversal method visits nodes level by level, like scanning space sectors systematically?"
    else if key == "trees" && k == 4 then "The height of a balanced binary tree with 15 nodes is approximately:"
    else if key == "sorting" && k == 0 then "Which sorting algorithm would be most efficient for a nearly-sorted list of spacecraft launch times?"
    else if key == "sorting" && k == 1 then "What is the average time complexity of Quick Sort?"
    else if key == "sorting" && k == 2 then "Merge Sort divides an array of 8 planets into subarrays until:"
    else if key == "sorting" && k == 3 then "Which sorting algorithm is NOT stable (may change relative order of equal elements)?"
    else if key == "sorting" && k == 4 then "For sorting 1 million star coordinates, which algorithm provides guaranteed O(n log n) performance?"
    else if key == "bigO" && k == 0 then "Finding a specific star in a sorted catalog of 1 billion stars using binary search has complexity:"
    else if key == "bigO" && k == 1 then "Checking if two lists of satellite positions are identical by comparing each element has complexity:"
    else if key == "bigO" && k == 2 then "Which is faster for large inputs: O(n log n) or O(n\U{00B2})?"
    else if key == "bigO" && k == 3 then "Accessing a specific module on the ISS by its ID number from a hash table is:"
    else if key == "bigO" && k == 4 then "Nested loops checking all pairs of n planets has time complexity:"
    else if key == "practice" && k == 0 then "A space probe needs to visit planets in order of distance from Sun. Which structure is most appropriate?"
    else if key == "practice" && k == 1 then "What is the space complexity of a recursive function calculating orbital trajectories with depth n?"
    else if key == "practice" && k == 2 then "To find the shortest communication path between two satellites, which algorithm is best?"
    else if key == "practice" && k == 3 then "An array of 10 spacecraft needs one more added. What is the worst-case complexity if the array is full?"
    else if key == "practice" && k == 4 then "Which data structure would best implement a browser back button for a mission planning interface?"
    else ""
  }

  /** Option `j` (from 0) of question `k` of quiz `key`. */
  function OptionText(key: string, k: int, j: int): string
  {
    if key == "arrays" && k == 0 && j == 0 then "16"
    else if key == "arrays" && k == 0 && j == 1 then "15"
    else if key == "arrays" && k == 0 && j == 2 then "0"
    else if key == "arrays" && k == 0 && j == 3 then "17"
    else if key == "arrays" && k == 1 && j == 0 then "O(n)"
    else if key == "arrays" && k == 1 && j == 1 then "O(log n)"
    else if key == "arrays" && k == 1 && j == 2 then "O(1)"
    else if key == "arrays" && k == 1 && j == 3 then "O(n\U{00B2})"
    else if key == "arrays" && k == 2 && j == 0 then "Each satellite knows only its own position"
    else if key == "arrays" && k == 2 && j == 1 then "Each satellite points to the next satellite in orbit"
    else if key == "arrays" && k == 2 && j == 2 then "All satellites are stored in consecutive memory"
    else if key == "arrays" && k == 2 && j == 3 then "Satellites cannot be added or removed"
    else if key == "arrays" && k == 3 && j == 0 then "Faster access time"
    else if key == "arrays" && k == 3 && j == 1 then "Uses less memory"
    else if key == "arrays" && k == 3 && j == 2 then "Can grow or shrink as needed"
    else if key == "arrays" && k == 3 && j == 3 then "Better for sorting"
    else if key == "arrays" && k == 4 && j == 0 then "Only data"
    else if key == "arrays" && k == 4 && j == 1 then "Data and one pointer"
    else if key == "arrays" && k == 4 && j == 2 then "Data and two pointers (next and previous)"
    else if key == "arrays" && k == 4 && j == 3 then "Data and an array index"
    else if key == "stacks" && k == 0 && j == 0 then "1st stage"
    else if key == "stacks" && k == 0 && j == 1 then "2nd stage"
    else if key == "stacks" && k == 0 && j == 2 then "3rd stage"
    else if key == "stacks" && k == 0 && j == 3 then "All at once"
    else if key == "stacks" && k == 1 && j == 0 then "LIFO"
    else if key == "stacks" && k == 1 && j == 1 then "FIFO"
    else if key == "stacks" && k == 1 && j == 2 then "Random"
    else if key == "stacks" && k == 1 && j == 3 then "Priority-based only"
    else if key == "stacks" && k == 2 && j == 0 then "O(n)"
    else if key == "stacks" && k == 2 && j == 1 then "O(log n)"
    else if key == "stacks" && k == 2 && j == 2 then "O(1)"
    else if key == "stacks" && k == 2 && j == 3 then "O(n\U{00B2})"
    else if key == "stacks" && k == 3 && j == 0 then "Queue"
    else if key == "stacks" && k == 3 && j == 1 then "Array"
    else if key == "stacks" && k == 3 && j == 2 then "Stack"
    else if key == "stacks" && k == 3 && j == 3 then "Graph"
    else if key == "stacks" && k == 4 && j == 0 then "2"
    else if key == "stacks" && k == 4 && j == 1 then "3"
    else if key == "stacks" && k == 4 && j == 2 then "5"
    else if key == "stacks" && k == 4 && j == 3 then "6"
    else if key == "trees" && k == 0 && j == 0 then "1"
    else if key == "trees" && k == 0 && j == 1 then "2"
    else if key == "trees" && k == 0 && j == 2 then "3"
    else if key == "trees" && k == 0 && j == 3 then "Unlimited"
    else if key == "trees" && k == 1 && j == 0 then "Array"
    else if key == "trees" && k == 1 && j == 1 then "Stack"
    else if key == "trees" && k == 1 && j == 2 then "Tree"
    else if key == "trees" && k == 1 && j == 3 then "Graph"
    else if key == "trees" && k == 2 && j == 0 then "Left subtree"
    else if key == "trees" && k == 2 && j == 1 then "Right subtree"
    else if key == "trees" && k == 2 && j == 2 then "At root"
    else if key == "trees" && k == 2 && j == 3 then "Not possible"
    else if key == "trees" && k == 3 && j == 0 then "Depth-first"
    else if key == "trees" && k == 3 && j == 1 then "Breadth-first"
    else if key == "trees" && k == 3 && j == 2 then "In-order"
    else if key == "trees" && k == 3 && j == 3 then "Post-order"
    else if key == "trees" && k == 4 && j == 0 then "2"
    else if key == "trees" && k == 4 && j == 1 then "3"
    else if key == "trees" && k == 4 && j == 2 then "4"
    else if key == "trees" && k == 4 && j == 3 then "15"
    else if key == "sorting" && k == 0 && j == 0 then "Bubble Sort"
    else if key == "sorting" && k == 0 && j == 1 then "Quick Sort"
    else if key == "sorting" && k == 0 && j == 2 then "Insertion Sort"
    else if key == "sorting" && k == 0 && j == 3 then "Selection Sort"
    else if key == "sorting" && k == 1 && j == 0 then "O(n)"
    else if key == "sorting" && k == 1 && j == 1 then "O(n log n)"
    else if key == "sorting" && k == 1 && j == 2 then "O(n\U{00B2})"
    else if key == "sorting" && k == 1 && j == 3 then "O(log n)"
    else if key == "sorting" && k == 2 && j == 0 then "Each subarray has 2 elements"
    else if key == "sorting" && k == 2 && j == 1 then "Each subarray has 1 element"
    else if key == "sorting" && k == 2 && j == 2 then "Each subarray has 4 elements"
    else if key == "sorting" && k == 2 && j == 3 then "It never divides"
    else if key == "sorting" && k == 3 && j == 0 then "Merge Sort"
    else if key == "sorting" && k == 3 && j == 1 then "Bubble Sort"
    else if key == "sorting" && k == 3 && j == 2 then "Quick Sort"
    else if key == "sorting" && k == 3 && j == 3 then "Insertion Sort"
    else if key == "sorting" && k == 4 && j == 0 then "Bubble Sort"
    else if key == "sorting" && k == 4 && j == 1 then "Quick Sort"
    else if key == "sorting" && k == 4 && j == 2 then "Merge Sort"
    else if key == "sorting" && k == 4 && j == 3 then "Selection Sort"
    else if key == "bigO" && k == 0 && j == 0 then "O(1)"
    else if key == "bigO" && k == 0 && j == 1 then "O(log n)"
    else if key == "bigO" && k == 0 && j == 2 then "O(n)"
    else if key == "bigO" && k == 0 && j == 3 then "O(n\U{00B2})"
    else if key == "bigO" && k == 1 && j == 0 then "O(1)"
    else if key == "bigO" && k == 1 && j == 1 then "O(log n)"
    else if key == "bigO" && k == 1 && j == 2 then "O(n)"
    else if key == "bigO" && k == 1 && j == 3 then "O(n\U{00B2})"
    else if key == "bigO" && k == 2 && j == 0 then "O(n log n)"
    else if key == "bigO" && k == 2 && j == 1 then "O(n\U{00B2})"
    else if key == "bigO" && k == 2 && j == 2 then "Same speed"
    else if key == "bigO" && k == 2 && j == 3 then "Depends on constants"
    else if key == "bigO" && k == 3 && j == 0 then "O(1)"
    else if key == "bigO" && k == 3 && j == 1 then "O(log n)"
    else if key == "bigO" && k == 3 && j == 2 then "O(n)"
    else if key == "bigO" && k == 3 && j == 3 then "O(n log n)"
    else if key == "bigO" && k == 4 && j == 0 then "O(n)"
    else if key == "bigO" && k == 4 && j == 1 then "O(n log n)"
    else if key == "bigO" && k == 4 && j == 2 then "O(n\U{00B2})"
    else if key == "bigO" && k == 4 && j == 3 then "O(2^n)"
    else if key == "practice" && k == 0 && j == 0 then "Stack"
    else if key == "practice" && k == 0 && j == 1 then "Queue"
    else if key == "practice" && k == 0 && j == 2 then "Binary Search Tree"
    else if key == "practice" && k == 0 && j == 3 then "Hash Table"
    else if key == "practice" && k == 1 && j == 0 then "O(1)"
    else if key == "practice" && k == 1 && j == 1 then "O(log n)"
    else if key == "practice" && k == 1 && j == 2 then "O(n)"
    else if key == "practice" && k == 1 && j == 3 then "O(n\U{00B2})"
    else if key == "practice" && k == 2 && j == 0 then "Binary Search"
    else if key == "practice" && k == 2 && j == 1 then "Bubble Sort"
    else if key == "practice" && k == 2 && j == 2 then "Breadth-First Search"
    else if key == "practice" && k == 2 && j == 3 then "Linear Search"
    else if key == "practice" && k == 3 && j == 0 then "O(1)"
    else if key == "practice" && k == 3 && j == 1 then "O(log n)"
    else if key == "practice" && k == 3 && j == 2 then "O(n)"
    else if key == "practice" && k == 3 && j == 3 then "O(n\U{00B2})"
    else if key == "practice" && k == 4 && j == 0 then "Queue"
    else if key == "practice" && k == 4 && j == 1 then "Stack"
    else if key == "practice" && k == 4 && j == 2 then "Array"
    else if key == "practice" && k == 4 && j == 3 then "Binary Tree"
    else ""
  }

  /** The `explanation` of question `k` of quiz `key`. */
  function Explanation(key: string, k: int): string
  {
    if key == "arrays" && k == 0 then "Arrays use zero-based indexing, so 16 modules would have indices 0-15."
    else if key == "arrays" && k == 1 then "Array access by index is O(1) - constant time, regardless of array size."
    else if key == "arrays" && k == 2 then "In a linked list, each node (satellite) contains a reference to the next node."
    else if key == "arrays" && k == 3 then "Dynamic arrays can resize automatically, making them flexible for varying amounts of data."
    else if key == "arrays" && k == 4 then "Doubly linked lists have pointers to both the next and previous nodes."
    else if key == "stacks" && k == 0 then "LIFO (Last In, First Out) means the 3rd stage pushed is the first to pop/separate."
    else if key == "stacks" && k == 1 then "Queues follow FIFO (First In, First Out) - first scheduled, first launched."
    else if key == "stacks" && k == 2 then "Stack push and pop operations are O(1) - constant time."
    else if key == "stacks" && k == 3 then "Stack is perfect for undo - the last action (most recent) is undone first."
    else if key == "stacks" && k == 4 then "Circular queue wraps around. Added 6, removed 3: 6 - 3 = 3 items remain."
    else if key == "trees" && k == 0 then "Binary trees have at most 2 children per node (left and right)."
    else if key == "trees" && k == 1 then "Graphs represent networks with multiple connections between nodes."
    else if key == "trees" && k == 2 then "Mars is farther from the Sun than Earth, so in a BST it goes right (greater values)."
    else if key == "trees" && k == 3 then "Breadth-first (BFS) traversal visits all nodes at each level before moving deeper."
    else if key == "trees" && k == 4 then "Height \U{2248} log\U{2082}(n+1) - 1. For 15 nodes: log\U{2082}(16) - 1 = 4 - 1 = 3."
    else if key == "sorting" && k == 0 then "Insertion sort is very efficient O(n) for nearly-sorted data."
    else if key == "sorting" && k == 1 then "Quick Sort has average time complexity of O(n log n)."
    else if key == "sorting" && k == 2 then "Merge Sort divides until each subarray has 1 element, then merges them sorted."
    else if key == "sorting" && k == 3 then "Quick Sort is generally not stable, though it can be implemented to be stable."
    else if key == "sorting" && k == 4 then "Merge Sort guarantees O(n log n) in all cases, unlike Quick Sort which can degrade."
    else if key == "bigO" && k == 0 then "Binary search on sorted data is O(log n) - very efficient even for huge datasets."
    else if key == "bigO" && k == 1 then "Comparing each element once requires linear time O(n)."
    else if key == "bigO" && k == 2 then "O(n log n) grows much slower than O(n\U{00B2}) for large n."
    else if key == "bigO" && k == 3 then "Hash table access is O(1) average case - constant time."
    else if key == "bigO" && k == 4 then "Two nested loops each iterating n times gives O(n\U{00B2})."
    else if key == "practice" && k == 0 then "Binary Search Tree maintains sorted order and allows efficient insertion/search."
    else if key == "practice" && k == 1 then "Recursive calls use stack space proportional to recursion depth: O(n)."
    else if key == "practice" && k == 2 then "BFS finds shortest path in unweighted graphs like communication networks."
    else if key == "practice" && k == 3 then "If array is full, must create new larger array and copy all elements: O(n)."
    else if key == "practice" && k == 4 then "Stack implements LIFO - perfect for back button (most recent page first)."
    else ""
  }

  /** Question `k` of quiz `key`, as the record the quiz holds. */
  function QuestionAt(key: string, k: int): (q: Question)
    ensures key in Topics && 0 <= k < QuestionCount ==> WellFormedQuestion(q, k)
  {
    Question(QuestionId(key, k), QuestionText(key, k), seq(OptionCount, j => OptionText(key, k, j)), CorrectAnswer(key, k), Explanation(key, k))
  }

  /**
   * `quizData[key]`: the quiz filed under `key`, for exactly the six keys of
   * the bank. Each entry is a well-formed quiz whose `topic` is its own key.
   */
  function QuizEntry(key: string): (entry: Option<Quiz>)
    ensures entry.Some? <==> key in Topics
    ensures entry.Some? ==> entry.value.topic == key && WellFormedQuiz(entry.value)
  {
    if key in Topics then Some(Quiz(Title(key), TopicField(key), seq(QuestionCount, k => QuestionAt(key, k)))) else None
  }

  /** Question `k` of the entry under `key` is the assembled record of that question. */
  lemma EntryQuestion(key: string, k: int)
    requires key in Topics && 0 <= k < QuestionCount
    ensures QuizEntry(key).Some? && |QuizEntry(key).value.questions| == QuestionCount
    ensures QuizEntry(key).value.questions[k] == QuestionAt(key, k)
    ensures QuizEntry(key).value.questions[k].correctAnswer == CorrectAnswer(key, k)
    ensures QuizEntry(key).value.questions[k].question == QuestionText(key, k)
  {
  }

  /**
   * The quiz for `topic`: the bank's entry when there is one, otherwise the
   * practice quiz.
   */
  function GetTopicQuizData(topic: string): (quiz: Quiz)
    ensures topic in Topics ==> Some(quiz) == QuizEntry(topic)
    ensures topic !in Topics ==> Some(quiz) == QuizEntry(PracticeKey)
    ensures quiz.topic in Topics && WellFormedQuiz(quiz)
  {
    var key := if topic in Topics then topic else PracticeKey;
    QuizEntry(key).value
  }
}
