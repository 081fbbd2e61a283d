/** The live per-option body of `convert_examples_to_features`
    (run_race.single.py:173-265) and `select_field` (run_race.single.py:290-297).
    Every option is packed as `[CLS] context [SEP] question option [SEP]`,
    truncated greedily to the budget and zero-padded to the fixed length. */
module Features {
  import opened Wrappers
  import opened PyList
  import opened Truncation
  import opened Reader

  type Token = string

  const CLS: Token := "[CLS]"
  const SEP: Token := "[SEP]"

  /** The tokenizer is not modelled: `tokenize` splits text into sub-word
      tokens and `toIds` looks a token list up in the vocabulary. */
  datatype Tokenizer = Tokenizer(
    tokenize: string -> seq<Token>,
    toIds: seq<Token> -> seq<int>)

  /** The vocabulary lookup gives one id per token, as a real vocabulary does. */
  ghost predicate PreservesLength(toIds: seq<Token> -> seq<int>)
  {
    forall t :: |toIds(t)| == |t|
  }

  /** The tuple of line 251 for one option. */
  datatype PackedChoice = PackedChoice(
    tokens: seq<Token>,
    inputIds: seq<int>,
    inputMask: seq<int>,
    segmentIds: seq<int>,
    docLen: int,
    quesLen: int,
    optionLen: int)

  /** What `InputFeatures` keeps of one option (lines 130-140): everything but
      the tokens. */
  datatype ChoiceFeature = ChoiceFeature(
    inputIds: seq<int>,
    inputMask: seq<int>,
    segmentIds: seq<int>,
    docLen: int,
    quesLen: int,
    optionLen: int)

  datatype InputFeatures = InputFeatures(
    exampleId: string,
    choices: seq<ChoiceFeature>,
    answerLabel: Option<int>)

  function Stored(c: PackedChoice): ChoiceFeature
  {
    ChoiceFeature(c.inputIds, c.inputMask, c.segmentIds, c.docLen, c.quesLen, c.optionLen)
  }

  /** `[1] * n` padded with zeros to `length`: ones exactly below `n`. */
  lemma PaddedMask(n: nat, length: int)
    requires n <= length
    ensures var m := Repeat(1, n) + Repeat(0, length - n);
      && |m| == length
      && (forall i :: 0 <= i < length ==> m[i] == if i < n then 1 else 0)
      && Sum(m) == n
  {
    SumAppend(Repeat(1, n), Repeat(0, length - n));
    SumRepeat(1, n);
    SumRepeat(0, length - n);
  }

  /** The segment ids of line 236 padded with zeros: ones exactly on the
      ending and its closing `[SEP]`. */
  lemma PaddedSegments(docLen: nat, endLen: nat, length: int)
    requires docLen + endLen + 3 <= length
    ensures var s := Repeat(0, docLen + 2) + Repeat(1, endLen + 1) + Repeat(0, length - (docLen + endLen + 3));
      && |s| == length
      && forall i :: 0 <= i < length ==>
           s[i] == if docLen + 2 <= i < docLen + endLen + 3 then 1 else 0
  {
  }

  /** Lines 234-251 once the truncation is done: the kept article `ctx` and
      the kept ending `end` are laid out between the markers, looked up and
      padded, and the three length asserts run. */
  function Assemble(ctx: seq<Token>, end: seq<Token>, toIds: seq<Token> -> seq<int>, maxSeqLength: int,
                    quesLen: int, optionLen: int): (r: Result<PackedChoice, Exception>)
    ensures r.Success? ==> var c := r.value;
      && c.tokens == [CLS] + ctx + [SEP] + end + [SEP]
      && |c.tokens| <= maxSeqLength
      && |c.inputIds| == maxSeqLength
      && |c.inputMask| == maxSeqLength
      && |c.segmentIds| == maxSeqLength
      && c.docLen == |ctx| && c.quesLen == quesLen && c.optionLen == optionLen
    ensures r.Success? ==> var c := r.value;
      && c.inputIds == toIds(c.tokens) + Repeat(0, maxSeqLength - |c.tokens|)
      && (forall i :: 0 <= i < maxSeqLength ==>
            c.inputMask[i] == if i < |c.tokens| then 1 else 0)
      && (forall i :: 0 <= i < maxSeqLength ==>
            c.segmentIds[i] == if c.docLen + 2 <= i < |c.tokens| then 1 else 0)
      && Sum(c.inputMask) == |c.tokens|
    ensures |ctx| + |end| + 3 <= maxSeqLength && PreservesLength(toIds) ==> r.Success?
  {
    var tokens := [CLS] + ctx + [SEP] + end + [SEP];
    var segmentIds := Repeat(0, |ctx| + 2) + Repeat(1, |end| + 1);
    var ids := toIds(tokens);
    var mask := Repeat(1, |ids|);
    var padding := Repeat(0, maxSeqLength - |ids|);
    var inputIds, inputMask, paddedSegments := ids + padding, mask + padding, segmentIds + padding;
    if |inputIds| == maxSeqLength && |inputMask| == maxSeqLength && |paddedSegments| == maxSeqLength then
      assert |ids| == |tokens|;
      PaddedMask(|tokens|, maxSeqLength);
      PaddedSegments(|ctx|, |end|, maxSeqLength);
      Success(PackedChoice(tokens, inputIds, inputMask, paddedSegments, |ctx|, quesLen, optionLen))
    else
      Failure(AssertionError)
  }

  /** Lines 217-251 for one option. `context` is the article's tokens, which
      this option truncates as its own copy. The budget `maxSeqLength - 3`
      leaves room for `[CLS]` and the two `[SEP]`s; below 3 the truncation
      raises, and a vocabulary lookup that changes the length trips the
      asserts of lines 247-249. */
  function PackOption(context: seq<Token>, question: seq<Token>, option: seq<Token>,
                      toIds: seq<Token> -> seq<int>, maxSeqLength: int): (r: Result<PackedChoice, Exception>)
    ensures r.Success? ==> maxSeqLength >= 3
    ensures r.Success? ==> var c := r.value;
      && |c.inputIds| == maxSeqLength
      && |c.inputMask| == maxSeqLength
      && |c.segmentIds| == maxSeqLength
    ensures r.Success? ==> var c := r.value;
      && 0 <= c.docLen <= |context|
      && c.docLen + 3 <= |c.tokens| <= maxSeqLength
      && |c.tokens| - c.docLen - 3 <= |question| + |option|
      && c.tokens == [CLS] + context[..c.docLen] + [SEP]
                     + (question + option)[..|c.tokens| - c.docLen - 3] + [SEP]
      && c.optionLen == |option|
    ensures r.Success? ==> var c := r.value;
      && c.inputIds == toIds(c.tokens) + Repeat(0, maxSeqLength - |c.tokens|)
      && (forall i :: 0 <= i < maxSeqLength ==>
            c.inputMask[i] == if i < |c.tokens| then 1 else 0)
      && (forall i :: 0 <= i < maxSeqLength ==>
            c.segmentIds[i] == if c.docLen + 2 <= i < |c.tokens| then 1 else 0)
    ensures r.Success? ==> var c := r.value;
      Sum(c.inputMask) == c.docLen + c.quesLen + c.optionLen + 3
  {
    var optionLen := |option|;
    var ending := question + option;
    match Truncate(context, ending, maxSeqLength - 3)
    case Failure(e) => Failure(e)
    case Success(kept) =>
      var ctx, end := kept.a, kept.b;
      var quesLen := if |end| + |ctx| >= maxSeqLength - 3 then |end| - optionLen else |question|;
      Assemble(ctx, end, toIds, maxSeqLength, quesLen, optionLen)
  }

  /** With room for the three markers and a vocabulary lookup that keeps
      lengths, packing never raises: the asserts of lines 247-249 hold. */
  lemma PackOptionSucceeds(context: seq<Token>, question: seq<Token>, option: seq<Token>,
                           toIds: seq<Token> -> seq<int>, maxSeqLength: int)
    requires maxSeqLength >= 3
    requires PreservesLength(toIds)
    ensures PackOption(context, question, option, toIds, maxSeqLength).Success?
  {
  }

  /** What survives of the context and of the ending, and what `ques_len`
      reports, stated by the closed form of the truncation: `doc_len` is the
      kept context, and once the budget is reached `ques_len` is the kept
      ending minus the whole option, so option tokens cut from the tail still
      count against the question. */
  lemma PackOptionLengths(context: seq<Token>, question: seq<Token>, option: seq<Token>,
                          toIds: seq<Token> -> seq<int>, maxSeqLength: int)
    requires PackOption(context, question, option, toIds, maxSeqLength).Success?
    ensures var c := PackOption(context, question, option, toIds, maxSeqLength).value;
      var budget := maxSeqLength - 3;
      var endLen := |question| + |option|;
      && c.docLen == KeptA(|context|, endLen, budget)
      && |c.tokens| - c.docLen - 3 == KeptB(|context|, endLen, budget)
      && c.quesLen == if |context| + endLen >= budget
                      then KeptB(|context|, endLen, budget) - |option|
                      else |question|
  {
    TruncateClosedForm(context, question + option, maxSeqLength - 3);
  }

  /** When the article, question and option together reach the budget, the
      sequence is full: no padding, every position attended. */
  lemma FullWhenBudgetReached(context: seq<Token>, question: seq<Token>, option: seq<Token>,
                              toIds: seq<Token> -> seq<int>, maxSeqLength: int)
    requires PackOption(context, question, option, toIds, maxSeqLength).Success?
    requires |context| + |question| + |option| >= maxSeqLength - 3
    ensures var c := PackOption(context, question, option, toIds, maxSeqLength).value;
      && |c.tokens| == maxSeqLength
      && c.inputIds == toIds(c.tokens)
      && forall i :: 0 <= i < maxSeqLength ==> c.inputMask[i] == 1
  {
  }

  /** When nothing needs cutting every token is kept and the three lengths are
      the token counts of article, question and option. */
  lemma UntruncatedKeepsEverything(context: seq<Token>, question: seq<Token>, option: seq<Token>,
                                   toIds: seq<Token> -> seq<int>, maxSeqLength: int)
    requires PackOption(context, question, option, toIds, maxSeqLength).Success?
    requires |context| + |question| + |option| <= maxSeqLength - 3
    ensures var c := PackOption(context, question, option, toIds, maxSeqLength).value;
      && c.tokens == [CLS] + context + [SEP] + question + option + [SEP]
      && c.docLen == |context| && c.quesLen == |question| && c.optionLen == |option|
  {
  }

  /** `ques_len` is not the number of question tokens kept: with a long
      article, a one-token question and a five-token option under length 6,
      the ending keeps one token and `ques_len` is 1 - 5 = -4. */
  lemma QuesLenCanBeNegative(toIds: seq<Token> -> seq<int>)
    requires PreservesLength(toIds)
    ensures var context := seq(10, _ => "a");
      var r := PackOption(context, ["q"], seq(5, _ => "o"), toIds, 6);
      r.Success? && r.value.quesLen == -4 && r.value.docLen == 2
  {
    var context := seq(10, _ => "a");
    var option := seq(5, _ => "o");
    PackOptionSucceeds(context, ["q"], option, toIds, 6);
    PackOptionLengths(context, ["q"], option, toIds, 6);
  }

  /** The options of one example, in order (the loop of line 197). Each option
      packs its own copy of the context, so choice `i` depends on option `i`
      alone, and the first option that raises aborts the example. */
  function PackChoices(context: seq<Token>, question: seq<Token>, endings: seq<string>,
                       tk: Tokenizer, maxSeqLength: int): (r: Result<seq<ChoiceFeature>, Exception>)
    ensures r.Success? <==> forall i :: 0 <= i < |endings| ==>
      PackOption(context, question, tk.tokenize(endings[i]), tk.toIds, maxSeqLength).Success?
    ensures r.Success? ==> |r.value| == |endings|
    ensures r.Success? ==> forall i :: 0 <= i < |endings| ==>
      var c := PackOption(context, question, tk.tokenize(endings[i]), tk.toIds, maxSeqLength);
      c.Success? && r.value[i] == Stored(c.value)
  {
    if |endings| == 0 then Success([])
    else match PackOption(context, question, tk.tokenize(endings[0]), tk.toIds, maxSeqLength)
      case Failure(e) => Failure(e)
      case Success(c) =>
        match PackChoices(context, question, endings[1..], tk, maxSeqLength)
        case Failure(e) => Failure(e)
        case Success(rest) => Success([Stored(c)] + rest)
  }

  /** Lines 193-261 for one example: the article and the question are
      tokenized once and shared by the options. */
  function ConvertExample(example: RaceExample, tk: Tokenizer, maxSeqLength: int): (r: Result<InputFeatures, Exception>)
    ensures r.Success? <==> forall i :: 0 <= i < |example.endings| ==>
      PackOption(tk.tokenize(example.contextSentence), tk.tokenize(example.startEnding),
                 tk.tokenize(example.endings[i]), tk.toIds, maxSeqLength).Success?
    ensures r.Success? ==> maxSeqLength >= 3 || |example.endings| == 0
    ensures r.Success? ==>
      && r.value.exampleId == example.raceId
      && r.value.answerLabel == example.answerLabel
      && |r.value.choices| == |example.endings|
      && forall i :: 0 <= i < |example.endings| ==> FixedLength(r.value.choices[i], maxSeqLength)
    ensures r.Success? ==> forall i :: 0 <= i < |example.endings| ==>
      var c := PackOption(tk.tokenize(example.contextSentence), tk.tokenize(example.startEnding),
                          tk.tokenize(example.endings[i]), tk.toIds, maxSeqLength);
      c.Success? && r.value.choices[i] == Stored(c.value)
  {
    var context := tk.tokenize(example.contextSentence);
    var question := tk.tokenize(example.startEnding);
    match PackChoices(context, question, example.endings, tk, maxSeqLength)
    case Failure(e) => Failure(e)
    case Success(choices) =>
      ChoicesFixedLength(context, question, example.endings, tk, maxSeqLength);
      Success(InputFeatures(example.raceId, choices, example.answerLabel))
  }

  /** Every packed choice carries arrays of the fixed length, and packing
      anything at all needs room for the three special tokens. */
  lemma ChoicesFixedLength(context: seq<Token>, question: seq<Token>, endings: seq<string>,
                           tk: Tokenizer, maxSeqLength: int)
    requires PackChoices(context, question, endings, tk, maxSeqLength).Success?
    ensures maxSeqLength >= 3 || |endings| == 0
    ensures forall i :: 0 <= i < |endings| ==>
      FixedLength(PackChoices(context, question, endings, tk, maxSeqLength).value[i], maxSeqLength)
  {
    var choices := PackChoices(context, question, endings, tk, maxSeqLength).value;
    forall i | 0 <= i < |endings|
      ensures FixedLength(choices[i], maxSeqLength)
    {
      var c := PackOption(context, question, tk.tokenize(endings[i]), tk.toIds, maxSeqLength);
      assert c.Success? && choices[i] == Stored(c.value);
    }
    if |endings| > 0 {
      assert PackOption(context, question, tk.tokenize(endings[0]), tk.toIds, maxSeqLength).Success?;
    }
  }

  /** The three arrays handed to the model all have the fixed length. */
  predicate FixedLength(c: ChoiceFeature, maxSeqLength: int)
  {
    |c.inputIds| == maxSeqLength && |c.inputMask| == maxSeqLength && |c.segmentIds| == maxSeqLength
  }

  /** Changing one option of an example leaves the features of every other
      option unchanged: no option sees another's truncation. */
  lemma OptionsIndependent(e1: RaceExample, e2: RaceExample, tk: Tokenizer, maxSeqLength: int, i: nat)
    requires e1.contextSentence == e2.contextSentence && e1.startEnding == e2.startEnding
    requires i < |e1.endings| && i < |e2.endings| && e1.endings[i] == e2.endings[i]
    ensures var r1, r2 := ConvertExample(e1, tk, maxSeqLength), ConvertExample(e2, tk, maxSeqLength);
      r1.Success? && r2.Success? ==> r1.value.choices[i] == r2.value.choices[i]
  {
  }

  /** The loop of line 192 over all examples; one failing example aborts. */
  function ConvertExamples(examples: seq<RaceExample>, tk: Tokenizer, maxSeqLength: int): (r: Result<seq<InputFeatures>, Exception>)
    ensures r.Success? <==> forall i :: 0 <= i < |examples| ==> ConvertExample(examples[i], tk, maxSeqLength).Success?
    ensures r.Success? ==> |r.value| == |examples|
    ensures r.Success? ==> forall i :: 0 <= i < |examples| ==>
      Success(r.value[i]) == ConvertExample(examples[i], tk, maxSeqLength)
  {
    if |examples| == 0 then Success([])
    else match ConvertExample(examples[0], tk, maxSeqLength)
      case Failure(e) => Failure(e)
      case Success(f) =>
        var tail := ConvertExamples(examples[1..], tk, maxSeqLength);
        assert forall i :: 1 <= i < |examples| ==> examples[1..][i - 1] == examples[i];
        match tail
        case Failure(e) => Failure(e)
        case Success(rest) => Success([f] + rest)
  }

  /** Given room for the markers and a length-keeping vocabulary, every
      example converts, and each feature has one fixed-length choice per
      option of its example. */
  lemma ConvertExamplesSucceeds(examples: seq<RaceExample>, tk: Tokenizer, maxSeqLength: int)
    requires maxSeqLength >= 3
    requires PreservesLength(tk.toIds)
    ensures var r := ConvertExamples(examples, tk, maxSeqLength);
      && r.Success?
      && forall i :: 0 <= i < |examples| ==>
           && r.value[i].exampleId == examples[i].raceId
           && |r.value[i].choices| == |examples[i].endings|
  {
  }

  /** Keys of the per-choice dictionary (lines 131-138). */
  datatype Field = InputIds | InputMask | SegmentIds | DocLen | QuesLen | OptionLen

  datatype FieldValue = Ints(values: seq<int>) | Scalar(value: int)

  function FieldOf(c: ChoiceFeature, field: Field): FieldValue
  {
    match field
    case InputIds => Ints(c.inputIds)
    case InputMask => Ints(c.inputMask)
    case SegmentIds => Ints(c.segmentIds)
    case DocLen => Scalar(c.docLen)
    case QuesLen => Scalar(c.quesLen)
    case OptionLen => Scalar(c.optionLen)
  }

  /** `select_field`: one row per feature, one entry per choice. */
  function SelectField(features: seq<InputFeatures>, field: Field): (r: seq<seq<FieldValue>>)
    ensures |r| == |features|
    ensures forall i :: 0 <= i < |r| ==> |r[i]| == |features[i].choices|
    ensures forall i, j :: 0 <= i < |r| && 0 <= j < |r[i]| ==> r[i][j] == FieldOf(features[i].choices[j], field)
  {
    seq(|features|, i requires 0 <= i < |features| =>
      seq(|features[i].choices|, j requires 0 <= j < |features[i].choices| =>
        FieldOf(features[i].choices[j], field)))
  }

  /** The selected arrays of converted four-option examples form a
      rectangular `examples x 4 x maxSeqLength` block, the shape the tensors
      of lines 635-637 need. */
  lemma SelectFieldRectangular(examples: seq<RaceExample>, tk: Tokenizer, maxSeqLength: int, field: Field)
    requires forall i :: 0 <= i < |examples| ==> |examples[i].endings| == 4
    requires field == InputIds || field == InputMask || field == SegmentIds
    requires ConvertExamples(examples, tk, maxSeqLength).Success?
    ensures var rows := SelectField(ConvertExamples(examples, tk, maxSeqLength).value, field);
      && |rows| == |examples|
      && forall i, j :: 0 <= i < |rows| && 0 <= j < |rows[i]| ==>
           |rows[i]| == 4 && rows[i][j].Ints? && |rows[i][j].values| == maxSeqLength
  {
  }
}
