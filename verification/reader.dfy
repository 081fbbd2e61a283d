/** The per-record expansion of `read_race_examples`
    (run_race.single.py:145-170): every parsed document yields one example per
    answer, in index order; one unreadable document aborts the whole read. */
module Reader {
  import opened Wrappers
  import opened Decimal

  /** `RaceExample` (run_race.single.py:71-100): the question is the start of
      every ending, the options are the four endings. */
  datatype RaceExample = RaceExample(
    raceId: string,
    contextSentence: string,
    startEnding: string,
    endings: seq<string>,
    answerLabel: Option<int>)

  /** The fields of one parsed JSON document; a key the file lacks is `None`. */
  datatype Document = Document(
    article: Option<string>,
    questions: Option<seq<string>>,
    options: Option<seq<seq<string>>>,
    answers: Option<seq<string>>)

  /** `filename + '-' + str(i)` */
  function RaceId(filename: string, i: nat): (id: string)
    ensures |id| > |filename| + 1 && id[..|filename| + 1] == filename + "-"
    ensures forall k :: |filename| + 1 <= k < |id| ==> IsDigit(id[k])
    ensures LastDash(id) == |filename|
  {
    LastDashBeforeDigits(filename, NatToString(i));
    filename + "-" + NatToString(i)
  }

  /** `ord(answer) - ord('A')`: 'A'..'D' become 0..3, any other letter is kept
      as whatever offset it has. */
  function LetterLabel(c: char): (offset: int)
    ensures 0 <= offset < 4 <==> 'A' <= c <= 'D'
    ensures 0 <= offset < 4 ==> c == "ABCD"[offset]
    ensures offset == 0 <==> c == 'A'
  {
    (c as int) - ('A' as int)
  }

  /** Question `i` of the document can be turned into an example without an
      exception: its answer is one character long and it has a question and
      at least four options. */
  predicate QuestionReadable(doc: Document, i: nat)
    requires doc.answers.Some? && i < |doc.answers.value|
  {
    && |doc.answers.value[i]| == 1
    && doc.questions.Some? && i < |doc.questions.value|
    && doc.options.Some? && i < |doc.options.value|
    && |doc.options.value[i]| >= 4
  }

  /** The whole document reads without an exception. */
  predicate Readable(doc: Document)
  {
    && doc.article.Some?
    && doc.answers.Some?
    && forall i :: 0 <= i < |doc.answers.value| ==> QuestionReadable(doc, i)
  }

  /** Lines 155-168 for one index, raising in the order the source evaluates. */
  function ExampleAt(filename: string, doc: Document, i: nat): (r: Result<RaceExample, Exception>)
    requires doc.article.Some? && doc.answers.Some? && i < |doc.answers.value|
    ensures r.Success? <==> QuestionReadable(doc, i)
  {
    var answer := doc.answers.value[i];
    if |answer| != 1 then Failure(TypeError("ord() expected a character"))
    else if doc.questions.None? then Failure(KeyError("questions"))
    else if i >= |doc.questions.value| then Failure(IndexError("list index out of range"))
    else if doc.options.None? then Failure(KeyError("options"))
    else if i >= |doc.options.value| then Failure(IndexError("list index out of range"))
    else
      var options := doc.options.value[i];
      if |options| < 4 then Failure(IndexError("list index out of range"))
      else Success(RaceExample(
        RaceId(filename, i),
        doc.article.value,
        doc.questions.value[i],
        options[..4],
        Some(LetterLabel(answer[0]))))
  }

  /** The loop of line 154 from index `i` on. */
  function ReadQuestions(filename: string, doc: Document, i: nat): (r: Result<seq<RaceExample>, Exception>)
    requires doc.article.Some? && doc.answers.Some? && i <= |doc.answers.value|
    ensures r.Success? <==>
      forall j :: i <= j < |doc.answers.value| ==> QuestionReadable(doc, j)
    ensures r.Success? ==> |r.value| == |doc.answers.value| - i
    ensures r.Success? ==>
      forall k :: 0 <= k < |r.value| ==> Success(r.value[k]) == ExampleAt(filename, doc, i + k)
    decreases |doc.answers.value| - i
  {
    if i == |doc.answers.value| then Success([])
    else match ExampleAt(filename, doc, i)
      case Failure(e) => Failure(e)
      case Success(example) =>
        match ReadQuestions(filename, doc, i + 1)
        case Failure(e) => Failure(e)
        case Success(rest) => Success([example] + rest)
  }

  /** One document: lines 152-168. */
  function ReadDocument(filename: string, doc: Document): (r: Result<seq<RaceExample>, Exception>)
    ensures r.Success? <==> Readable(doc)
    ensures r.Success? ==> |r.value| == |doc.answers.value|
    ensures r.Success? ==> forall k :: 0 <= k < |r.value| ==>
      var answer := doc.answers.value[k];
      var e := r.value[k];
      && QuestionReadable(doc, k)
      && e.raceId == RaceId(filename, k)
      && e.contextSentence == doc.article.value
      && e.startEnding == doc.questions.value[k]
      && e.endings == doc.options.value[k][..4]
      && |answer| == 1 && e.answerLabel == Some(LetterLabel(answer[0]))
  {
    if doc.article.None? then Failure(KeyError("article"))
    else if doc.answers.None? then Failure(KeyError("answers"))
    else
      var r := ReadQuestions(filename, doc, 0);
      assert r.Success? ==> forall k :: 0 <= k < |r.value| ==> Success(r.value[k]) == ExampleAt(filename, doc, k);
      r
  }

  /** All documents in order (the loops of lines 147-151 once the files are
      parsed): examples of earlier files come first. */
  function ReadDocuments(files: seq<(string, Document)>): (r: Result<seq<RaceExample>, Exception>)
    ensures r.Success? <==> forall k :: 0 <= k < |files| ==> Readable(files[k].1)
    ensures r.Success? ==> |r.value| == QuestionCount(files)
    ensures r.Success? ==> forall k :: 0 <= k < |files| ==> BlockOf(r.value, files, k)
  {
    if |files| == 0 then Success([])
    else match ReadDocument(files[0].0, files[0].1)
      case Failure(e) => Failure(e)
      case Success(first) =>
        match ReadDocuments(files[1..])
        case Failure(e) => Failure(e)
        case Success(rest) =>
          ConcatInFileOrder(files, first, rest);
          Success(first + rest)
  }

  /** The examples read from file `k` sit in `r` right after those of the
      files before it. */
  predicate BlockOf(r: seq<RaceExample>, files: seq<(string, Document)>, k: nat)
    requires k < |files|
  {
    && QuestionCount(files[..k]) <= QuestionCount(files[..k + 1]) <= |r|
    && Success(r[QuestionCount(files[..k])..QuestionCount(files[..k + 1])])
       == ReadDocument(files[k].0, files[k].1)
  }

  /** The examples of the first file followed by those of the others, each
      file's block sitting between the answer counts of the files before it. */
  lemma ConcatInFileOrder(files: seq<(string, Document)>, first: seq<RaceExample>, rest: seq<RaceExample>)
    requires |files| > 0
    requires Success(first) == ReadDocument(files[0].0, files[0].1)
    requires |rest| == QuestionCount(files[1..])
    requires forall k :: 0 <= k < |files| - 1 ==> BlockOf(rest, files[1..], k)
    ensures forall k :: 0 <= k < |files| ==> BlockOf(first + rest, files, k)
  {
    forall k | 0 <= k < |files|
      ensures BlockOf(first + rest, files, k)
    {
      if k == 0 {
        QuestionCountCons(files, 1);
        assert (first + rest)[0..|first|] == first;
      } else {
        BlockShift(files, first, rest, k);
      }
    }
  }

  /** Block `k > 0` of the whole read is block `k - 1` of the later files,
      moved past the first file's examples. */
  lemma BlockShift(files: seq<(string, Document)>, first: seq<RaceExample>, rest: seq<RaceExample>, k: nat)
    requires 0 < k < |files|
    requires |first| == AnswerCount(files[0].1)
    requires BlockOf(rest, files[1..], k - 1)
    ensures BlockOf(first + rest, files, k)
  {
    QuestionCountCons(files, k);
    QuestionCountCons(files, k + 1);
    var lo, hi := QuestionCount(files[1..][..k - 1]), QuestionCount(files[1..][..k]);
    assert QuestionCount(files[..k]) == |first| + lo;
    assert QuestionCount(files[..k + 1]) == |first| + hi;
    SliceAfter(first, rest, lo, hi);
    assert files[1..][k - 1] == files[k];
  }

  lemma SliceAfter<T>(a: seq<T>, b: seq<T>, lo: nat, hi: nat)
    requires lo <= hi <= |b|
    ensures (a + b)[|a| + lo..|a| + hi] == b[lo..hi]
  {
  }

  /** Counting the answers of a non-empty prefix starts with the first file. */
  lemma QuestionCountCons(files: seq<(string, Document)>, k: nat)
    requires 0 < k <= |files|
    ensures QuestionCount(files[..k]) == AnswerCount(files[0].1) + QuestionCount(files[1..][..k - 1])
  {
    assert files[..k][1..] == files[1..][..k - 1];
  }

  function AnswerCount(doc: Document): nat
  {
    if doc.answers.Some? then |doc.answers.value| else 0
  }

  /** The number of answers across all documents. */
  function QuestionCount(files: seq<(string, Document)>): nat
  {
    if |files| == 0 then 0
    else AnswerCount(files[0].1) + QuestionCount(files[1..])
  }

  /** Position of the last '-' in `x`, or -1 when there is none. */
  function LastDash(x: string): (p: int)
    ensures -1 <= p < |x|
  {
    if |x| == 0 then -1
    else if x[|x| - 1] == '-' then |x| - 1
    else LastDash(x[..|x| - 1])
  }

  /** A '-' followed by digits only is the last '-' of the string. */
  lemma {:induction false} LastDashBeforeDigits(f: string, s: string)
    requires forall k :: 0 <= k < |s| ==> IsDigit(s[k])
    ensures LastDash(f + "-" + s) == |f|
    decreases |s|
  {
    var x := f + "-" + s;
    if |s| > 0 {
      var s' := s[..|s| - 1];
      assert x[..|x| - 1] == f + "-" + s';
      LastDashBeforeDigits(f, s');
    }
  }

  /** An example id names its file and its question index unambiguously:
      digits never contain '-', so the last '-' splits the id. */
  lemma RaceIdInjective(f1: string, i1: nat, f2: string, i2: nat)
    requires RaceId(f1, i1) == RaceId(f2, i2)
    ensures f1 == f2 && i1 == i2
  {
    var s1, s2 := NatToString(i1), NatToString(i2);
    var x := RaceId(f1, i1);
    LastDashBeforeDigits(f1, s1);
    LastDashBeforeDigits(f2, s2);
    assert x == f1 + "-" + s1 == f2 + "-" + s2;
    assert |f1| == |f2|;
    assert s1 == x[|f1| + 1..] == s2;
    assert f1 == x[..|f1|] == f2;
    NatToStringInjective(i1, i2);
  }

  /** Examples read from files other than `f` never carry an id of `f`. */
  lemma {:induction false} IdsAvoidFile(files: seq<(string, Document)>, f: string, i: nat)
    requires forall k :: 0 <= k < |files| ==> files[k].0 != f
    requires ReadDocuments(files).Success?
    ensures forall e :: e in ReadDocuments(files).value ==> e.raceId != RaceId(f, i)
  {
    if |files| > 0 {
      var first := ReadDocument(files[0].0, files[0].1).value;
      var rest := ReadDocuments(files[1..]).value;
      IdsAvoidFile(files[1..], f, i);
      forall e | e in first
        ensures e.raceId != RaceId(f, i)
      {
        var k :| 0 <= k < |first| && first[k] == e;
        if e.raceId == RaceId(f, i) {
          RaceIdInjective(files[0].0, k, f, i);
        }
      }
    }
  }

  /** Reading files with distinct names yields examples with distinct ids. */
  lemma {:induction false} IdsUnique(files: seq<(string, Document)>)
    requires forall k, l :: 0 <= k < l < |files| ==> files[k].0 != files[l].0
    requires ReadDocuments(files).Success?
    ensures var r := ReadDocuments(files).value;
      forall m, n :: 0 <= m < n < |r| ==> r[m].raceId != r[n].raceId
  {
    if |files| > 0 {
      var f := files[0].0;
      var first := ReadDocument(f, files[0].1).value;
      var rest := ReadDocuments(files[1..]).value;
      var r := ReadDocuments(files).value;
      assert r == first + rest;
      IdsUnique(files[1..]);
      forall m, n | 0 <= m < n < |r|
        ensures r[m].raceId != r[n].raceId
      {
        if n < |first| {
          if r[m].raceId == r[n].raceId {
            RaceIdInjective(f, m, f, n);
          }
        } else if m >= |first| {
          assert r[m] == rest[m - |first|] && r[n] == rest[n - |first|];
        } else {
          assert r[n] in rest;
          IdsAvoidFile(files[1..], f, m);
        }
      }
    }
  }

  /** The one-question document of the dataset's smallest shape: answer "C"
      becomes label 2. */
  lemma SingleQuestionDocument()
    ensures var doc := Document(Some("art"), Some(["q"]), Some([["a", "b", "c", "d"]]), Some(["C"]));
      var r := ReadDocument("f.txt", doc);
      && r.Success? && |r.value| == 1
      && r.value[0].answerLabel == Some(2)
      && r.value[0].endings == ["a", "b", "c", "d"]
  {
  }
}
