/** The answering entry point `runModel`: build-or-load the vector store,
    record the question in the process-wide message history, and query the
    retrieval chain. Everything the libraries do (loading, splitting,
    embedding, persisting, generating) is an opaque outcome passed in. */
module ChatAssistant {
  import opened Documents

  datatype Option<T> = None | Some(value: T)

  /** Where the vector store is persisted. */
  const VectorStorePath: string := "Data.index"
  /** The directory documents are loaded from. */
  const DataDir: string := "./data"
  /** What the caller receives when querying the chain fails. */
  const Fallback: string := "Sorry, I couldn't process your request."

  /** One entry of the message history: the question, with no extra fields. */
  datatype Message = Message(content: string)

  /** What a call hands back: the answer text, or an exception that escapes. */
  datatype Outcome = Answer(text: string) | Threw

  /** The outcomes of the external calls one `runModel` call makes:
      loading the persisted store, splitting + embedding + building a store
      from the normalised texts, saving it, invoking the chain, and the text
      the chain answers with. */
  datatype Env = Env(
    loadOk: bool,
    builds: seq<string> -> bool,
    saveOk: bool,
    invokeOk: bool,
    answerText: string)

  /** What the index phase of a call did. `ok` says whether `vectorStore`
      ended up defined; `saved` whether the store reached the file. */
  datatype IndexPhase = Load(ok: bool) | Build(ok: bool, saved: bool)

  /** The result of one call: what the index phase did, whether the index file
      exists afterwards, the history afterwards, and what was returned. */
  datatype Step = Step(phase: IndexPhase, fileExists: bool, history: seq<Message>, outcome: Outcome)

  /** The build-or-load decision. With the file present the store is only
      loaded. Without it the documents are normalised and a store is built
      from them; documents that failed to load at startup make the
      normalisation throw, which the same handler catches. */
  function IndexPhaseOf(fileExists: bool, docs: Option<seq<Document>>, env: Env): IndexPhase
  {
    if fileExists then Load(env.loadOk)
    else match docs
      case None => Build(false, false)
      case Some(ds) =>
        if env.builds(NormalizeDocuments(ds)) then Build(true, env.saveOk)
        else Build(false, false)
  }

  /** One `runModel(question)` call from the given process state. */
  function RunStep(fileExists: bool, history: seq<Message>, docs: Option<seq<Document>>,
                   question: string, env: Env): (s: Step)
    // a present file is only loaded, and stays present; a successful load yields a store
    ensures fileExists ==> s.phase == Load(env.loadOk) && s.fileExists
    // an absent file with documents: a store exactly when building from their
    // normalisation succeeds, saved exactly when saving that store succeeds
    ensures !fileExists && docs.Some? ==>
              s.phase == Build(env.builds(NormalizeDocuments(docs.value)),
                               env.builds(NormalizeDocuments(docs.value)) && env.saveOk)
    // an absent file means a build, and the file exists afterwards exactly when it was saved
    ensures !fileExists ==> s.phase.Build? && (s.fileExists <==> s.phase.saved)
    // only a built store is saved
    ensures s.phase.Build? && s.phase.saved ==> s.phase.ok
    // without documents nothing can be built
    ensures !fileExists && docs.None? ==> !s.phase.ok && !s.fileExists
    // every call appends exactly its question, whatever happens afterwards
    ensures s.history == history + [Message(question)]
    // no store: the chain cannot be built and the call throws
    ensures s.outcome.Threw? <==> !s.phase.ok
    // with a store: the chain's text, or the fixed fallback when querying fails
    ensures s.phase.ok && env.invokeOk ==> s.outcome == Answer(env.answerText)
    ensures s.phase.ok && !env.invokeOk ==> s.outcome == Answer(Fallback)
  {
    var phase := IndexPhaseOf(fileExists, docs, env);
    var fileAfter := fileExists || (phase.Build? && phase.saved);
    var historyAfter := history + [Message(question)];
    if !phase.ok then Step(phase, fileAfter, historyAfter, Threw)
    else if env.invokeOk then Step(phase, fileAfter, historyAfter, Answer(env.answerText))
    else Step(phase, fileAfter, historyAfter, Answer(Fallback))
  }

  /** A failed query changes nothing but the returned value: the state after
      it is the state after a successful query with the same other outcomes. */
  lemma FallbackKeepsState(fileExists: bool, history: seq<Message>, docs: Option<seq<Document>>,
                           question: string, env: Env)
    ensures var failed := RunStep(fileExists, history, docs, question, env.(invokeOk := false));
            var succeeded := RunStep(fileExists, history, docs, question, env.(invokeOk := true));
            failed.phase == succeeded.phase && failed.fileExists == succeeded.fileExists &&
            failed.history == succeeded.history
  {
  }

  /** The history entries for a run of questions. */
  function Messages(questions: seq<string>): (ms: seq<Message>)
    ensures |ms| == |questions|
    ensures forall i :: 0 <= i < |questions| ==> ms[i] == Message(questions[i])
  {
    if |questions| == 0 then [] else [Message(questions[0])] + Messages(questions[1..])
  }

  /** The successive calls `runModel(questions[0])`, `runModel(questions[1])`,
      … of one process, each with its own external outcomes. */
  function RunSequence(fileExists: bool, history: seq<Message>, docs: Option<seq<Document>>,
                       questions: seq<string>, envs: seq<Env>): (steps: seq<Step>)
    requires |questions| == |envs|
    ensures |steps| == |questions|
    // the first call starts from the given state ...
    ensures |questions| > 0 ==> steps[0] == RunStep(fileExists, history, docs, questions[0], envs[0])
    // ... and every later call from the state the previous call left
    ensures forall i :: 0 < i < |questions| ==>
              steps[i] == RunStep(steps[i - 1].fileExists, steps[i - 1].history, docs, questions[i], envs[i])
    decreases |questions|
  {
    if |questions| == 0 then []
    else
      var s := RunStep(fileExists, history, docs, questions[0], envs[0]);
      [s] + RunSequence(s.fileExists, s.history, docs, questions[1..], envs[1..])
  }

  /** The first `i + 1` entries for `questions` are the entry for its head
      followed by the first `i` entries for its tail. */
  lemma MessagesShift(history: seq<Message>, questions: seq<string>, i: nat)
    requires 0 < i < |questions|
    ensures (history + [Message(questions[0])]) + Messages(questions[1..][..i]) ==
            history + Messages(questions[..i + 1])
  {
  }

  /** Call `i` saved a freshly built store to the index file. */
  predicate Saved(s: Step)
  {
    s.phase.Build? && s.phase.saved
  }

  /** After call `i` the history is the starting one followed by the first
      `i + 1` questions, in order. */
  lemma {:induction false} SequenceHistory(fileExists: bool, history: seq<Message>,
                                           docs: Option<seq<Document>>,
                                           questions: seq<string>, envs: seq<Env>)
    requires |questions| == |envs|
    ensures forall i :: 0 <= i < |questions| ==>
              RunSequence(fileExists, history, docs, questions, envs)[i].history ==
              history + Messages(questions[..i + 1])
    decreases |questions|
  {
    if |questions| > 0 {
      var steps := RunSequence(fileExists, history, docs, questions, envs);
      var s := RunStep(fileExists, history, docs, questions[0], envs[0]);
      var tail := RunSequence(s.fileExists, s.history, docs, questions[1..], envs[1..]);
      SequenceHistory(s.fileExists, s.history, docs, questions[1..], envs[1..]);
      forall i | 0 <= i < |questions|
        ensures steps[i].history == history + Messages(questions[..i + 1])
      {
        if i == 0 {
          assert Messages(questions[..1]) == [Message(questions[0])];
        } else {
          assert steps[i] == tail[i - 1];
          MessagesShift(history, questions, i);
        }
      }
    }
  }

  /** With the index file present from the start, every call only loads and
      the file stays: the corpus is never rebuilt. */
  lemma {:induction false} PresentIndexOnlyLoaded(history: seq<Message>, docs: Option<seq<Document>>,
                                                  questions: seq<string>, envs: seq<Env>)
    requires |questions| == |envs|
    ensures forall i :: 0 <= i < |questions| ==>
              RunSequence(true, history, docs, questions, envs)[i].phase.Load? &&
              RunSequence(true, history, docs, questions, envs)[i].fileExists
    decreases |questions|
  {
    if |questions| > 0 {
      var steps := RunSequence(true, history, docs, questions, envs);
      var s := RunStep(true, history, docs, questions[0], envs[0]);
      var tail := RunSequence(s.fileExists, s.history, docs, questions[1..], envs[1..]);
      PresentIndexOnlyLoaded(s.history, docs, questions[1..], envs[1..]);
      forall i | 1 <= i < |questions| ensures steps[i] == tail[i - 1] { }
    }
  }

  /** Once a call has saved a store, every later call only loads: a sequence
      of calls builds and saves the index at most once. */
  lemma {:induction false} SavedOnce(fileExists: bool, history: seq<Message>,
                                     docs: Option<seq<Document>>,
                                     questions: seq<string>, envs: seq<Env>)
    requires |questions| == |envs|
    ensures forall i, j :: (0 <= i < j < |questions| &&
                            Saved(RunSequence(fileExists, history, docs, questions, envs)[i])) ==>
              RunSequence(fileExists, history, docs, questions, envs)[j].phase.Load?
    decreases |questions|
  {
    if |questions| > 0 {
      var steps := RunSequence(fileExists, history, docs, questions, envs);
      var s := RunStep(fileExists, history, docs, questions[0], envs[0]);
      var tail := RunSequence(s.fileExists, s.history, docs, questions[1..], envs[1..]);
      SavedOnce(s.fileExists, s.history, docs, questions[1..], envs[1..]);
      if Saved(s) {
        PresentIndexOnlyLoaded(s.history, docs, questions[1..], envs[1..]);
      }
      forall i, j | 0 <= i < j < |questions| && Saved(steps[i])
        ensures steps[j].phase.Load?
      {
        assert steps[j] == tail[j - 1];
        if i > 0 {
          assert steps[i] == tail[i - 1];
        }
      }
    }
  }

  /** When call `i - 1` did not leave the index file behind (its build failed,
      or saving failed), call `i` takes the same branch: an absent file is
      built again on the next call. */
  lemma {:induction false} UnsavedBuildIsRetried(fileExists: bool, history: seq<Message>,
                                                 docs: Option<seq<Document>>,
                                                 questions: seq<string>, envs: seq<Env>, i: nat)
    requires |questions| == |envs|
    requires 0 < i < |questions|
    requires RunSequence(fileExists, history, docs, questions, envs)[i - 1].phase.Build?
    requires !Saved(RunSequence(fileExists, history, docs, questions, envs)[i - 1])
    ensures RunSequence(fileExists, history, docs, questions, envs)[i].phase.Build?
    decreases i
  {
    var steps := RunSequence(fileExists, history, docs, questions, envs);
    var s := RunStep(fileExists, history, docs, questions[0], envs[0]);
    var tail := RunSequence(s.fileExists, s.history, docs, questions[1..], envs[1..]);
    assert steps[i] == tail[i - 1];
    if i > 1 {
      assert steps[i - 1] == tail[i - 2];
      UnsavedBuildIsRetried(s.fileExists, s.history, docs, questions[1..], envs[1..], i - 1);
    }
  }

  /** Documents that failed to load at startup, with no file present: every
      call throws and the file is never created. */
  lemma {:induction false} NoDocumentsAlwaysThrows(fileExists: bool, history: seq<Message>,
                                                   questions: seq<string>, envs: seq<Env>)
    requires |questions| == |envs|
    requires !fileExists
    ensures forall i :: 0 <= i < |questions| ==>
              RunSequence(fileExists, history, None, questions, envs)[i].outcome == Threw &&
              !RunSequence(fileExists, history, None, questions, envs)[i].fileExists
    decreases |questions|
  {
    if |questions| > 0 {
      var s := RunStep(fileExists, history, None, questions[0], envs[0]);
      NoDocumentsAlwaysThrows(s.fileExists, s.history, questions[1..], envs[1..]);
    }
  }

  /** The module-level state of `chat_with_assistant.js` in one process. */
  class Assistant {
    /** Whether `./data` exists (created at startup when missing). */
    var dataDirExists: bool
    /** Whether startup had to create `./data`. */
    var createdDataDir: bool
    /** The documents loaded at startup, `None` when loading threw. */
    const docs: Option<seq<Document>>
    /** Whether `Data.index` exists. */
    var indexFileExists: bool
    /** The message history, appended to by every call. */
    var history: seq<Message>

    /** Module start-up: create `./data` when missing, then keep what the
        loader returned (`None` when it threw) with an empty history. */
    constructor (dataDirPresent: bool, indexFilePresent: bool, loaded: Option<seq<Document>>)
      ensures dataDirExists && createdDataDir == !dataDirPresent
      ensures docs == loaded && indexFileExists == indexFilePresent && history == []
    {
      dataDirExists := true;
      createdDataDir := !dataDirPresent;
      docs := loaded;
      indexFileExists := indexFilePresent;
      history := [];
    }

    /** `runModel(question)`. */
    method RunModel(question: string, env: Env) returns (out: Outcome)
      modifies this`indexFileExists, this`history
      ensures var s := RunStep(old(indexFileExists), old(history), docs, question, env);
              indexFileExists == s.fileExists && history == s.history && out == s.outcome
    {
      var storeDefined := false;
      if indexFileExists {
        storeDefined := env.loadOk;
      } else if docs.Some? {
        var normalized := NormalizeDocuments(docs.value);
        if env.builds(normalized) {
          storeDefined := true;
          if env.saveOk {
            indexFileExists := true;
          }
        }
      }
      history := history + [Message(question)];
      if !storeDefined {
        return Threw;
      }
      if env.invokeOk {
        out := Answer(env.answerText);
      } else {
        out := Answer(Fallback);
      }
    }
  }
}
