/** The code generator's `eval` (agents/simulation_team/code_generator.py): how the output of
    running a script is shaped for the model, and which variables of the script's namespace
    are carried over to the next turn. Running the script is not modelled: its outcome (what it
    printed, or the exception and traceback it raised) and its final namespace are inputs. */
module CodeEval {
  import opened Wrappers
  import opened PyStr
  import opened OrderedMaps

  const NoOutputText := "<code ran, no output printed>"
  const TracebackMarker := "... [traceback truncated] ..."
  const MaxOutput := 5000
  const TruncationSuffix := "\n... [output truncated]"

  /** What running the script did: printed `stdout`; raised an `Exception` whose `repr` is
      given, with the lines of its formatted traceback; or raised a `BaseException` that is no
      `Exception` (`SystemExit` from `sys.exit`, `KeyboardInterrupt`), which `except Exception`
      does not catch. */
  datatype ExecOutcome =
    | Completed(stdout: string)
    | Raised(repr: string, traceback: seq<string>)
    | Aborted(repr: string)

  /** What `eval` returns: the shaped output and the variables carried over. */
  datatype Evaluated = Evaluated(output: string, persisted: OrderedMap<Value>)

  /** The traceback lines kept: all of them, or for more than 20 the first ten, a marker line
      and the last ten. */
  function TracebackLines(tb: seq<string>): (r: seq<string>)
    ensures |tb| <= 20 ==> r == tb
    ensures |tb| > 20 ==> |r| == 21 && r[..10] == tb[..10] && r[10] == TracebackMarker && r[11..] == tb[|tb| - 10..]
  {
    if |tb| > 20 then tb[..10] + [TracebackMarker] + tb[|tb| - 10..] else tb
  }

  /** The output before it is cut to size. */
  function RawOutput(o: ExecOutcome): string
    requires !o.Aborted?
  {
    match o
    case Completed(stdout) => if Strip(stdout) == [] then NoOutputText else Strip(stdout)
    case Raised(repr, tb) => "Error: " + repr + "\nTraceback:\n" + Join("\n", TracebackLines(tb))
  }

  /** At most `MaxOutput` characters are kept, and a cut output says so. */
  function Truncate(s: string): string {
    if |s| > MaxOutput then s[..MaxOutput] + TruncationSuffix else s
  }

  /** A value left in the namespace, as far as the filter looks at it: whether it is a module,
      a function or a class, whether `json.dumps` accepts it, and its identity for `is`. */
  datatype ValueKind = Module | Function | Class | Data
  datatype Value = Value(kind: ValueKind, jsonable: bool, identity: nat)

  /** The tests the loop over the namespace applies to `k = v`, in the order it applies them. */
  predicate Keep(k: string, v: Value, context: map<string, Value>) {
    if StartsWith(k, "__") then false
    else if v.kind != Data then false
    else if k in context && context[k] == v && !v.jsonable then false
    else v.jsonable
  }

  /** The variables carried over from the namespace entries `ks`, in the namespace's order. */
  function PersistedOf(ks: seq<string>, vals: map<string, Value>, context: map<string, Value>): (r: OrderedMap<Value>)
    requires forall i :: 0 <= i < |ks| ==> ks[i] in vals
    ensures r.Valid()
    decreases |ks|
  {
    if ks == [] then Empty()
    else
      var k := ks[|ks| - 1];
      var p := PersistedOf(ks[..|ks| - 1], vals, context);
      if Keep(k, vals[k], context) then Put(p, k, vals[k]) else p
  }

  /** The `try`/`except Exception` part of `eval`: the stripped printout or its placeholder, or
      the error text with the trimmed traceback. */
  method CaughtOutput(outcome: ExecOutcome) returns (output: string)
    requires !outcome.Aborted?
    ensures output == RawOutput(outcome)
  {
    match outcome {
      case Completed(stdout) =>
        output := Strip(stdout);
        if output == [] {
          output := NoOutputText;
        }
      case Raised(repr, tb) =>
        var trimmed;
        if |tb| > 20 {
          trimmed := Join("\n", tb[..10] + [TracebackMarker] + tb[|tb| - 10..]);
        } else {
          trimmed := Join("\n", tb);
        }
        output := "Error: " + repr + "\nTraceback:\n" + trimmed;
    }
  }

  /** The loop of `eval` over the namespace that fills `persisted`. */
  method Persist(namespace: OrderedMap<Value>, context: map<string, Value>) returns (persisted: OrderedMap<Value>)
    requires namespace.Valid()
    ensures persisted == PersistedOf(namespace.keys, namespace.vals, context)
  {
    persisted := Empty();
    var i := 0;
    while i < |namespace.keys|
      invariant 0 <= i <= |namespace.keys| && persisted.Valid()
      invariant persisted == PersistedOf(namespace.keys[..i], namespace.vals, context)
    {
      var k := namespace.keys[i];
      var v := namespace.vals[k];
      assert namespace.keys[..i + 1][..i] == namespace.keys[..i];
      if StartsWith(k, "__") {
      } else if v.kind == Module || v.kind == Function || v.kind == Class {
      } else if k in context && context[k] == v && !v.jsonable {
      } else if v.jsonable {
        persisted := Put(persisted, k, v);
      }
      i := i + 1;
    }
    assert namespace.keys[..i] == namespace.keys;
  }

  /** `eval(code, context)`, given the outcome of running `code` and the namespace it left. An
      exception that `except Exception` does not catch propagates out of `eval`. */
  method Eval(outcome: ExecOutcome, namespace: OrderedMap<Value>, context: map<string, Value>)
    returns (r: Result<Evaluated>)
    requires namespace.Valid()
    ensures outcome.Aborted? ==> r == Err(Uncaught(outcome.repr))
    ensures !outcome.Aborted? ==>
      r == Ok(Evaluated(Truncate(RawOutput(outcome)), PersistedOf(namespace.keys, namespace.vals, context)))
  {
    if outcome.Aborted? {
      return Err(Uncaught(outcome.repr));
    }
    var output := CaughtOutput(outcome);
    var persisted := Persist(namespace, context);
    if |output| > MaxOutput {
      output := output[..MaxOutput] + TruncationSuffix;
    }
    r := Ok(Evaluated(output, persisted));
  }

  // ---------------------------------------------------------------------
  // Lemmas

  /** The output is never empty: an empty printout becomes the placeholder text. */
  lemma OutputNeverEmpty(o: ExecOutcome)
    requires !o.Aborted?
    ensures Truncate(RawOutput(o)) != []
    ensures o.Completed? && !HasText(o.stdout) ==> RawOutput(o) == NoOutputText
    ensures o.Completed? && HasText(o.stdout) ==> RawOutput(o) == Strip(o.stdout)
  {
    if o.Completed? {
      StripEmptyIffBlank(o.stdout);
    }
  }

  /** Cutting keeps the first 5000 characters and adds the suffix only to longer outputs; an
      output that fits is returned as it is. */
  lemma TruncateBounds(s: string)
    ensures |Truncate(s)| <= MaxOutput + |TruncationSuffix|
    ensures |s| <= MaxOutput ==> Truncate(s) == s
    ensures |s| > MaxOutput ==> StartsWith(Truncate(s), s[..MaxOutput]) && EndsWith(Truncate(s), TruncationSuffix)
  {
    if |s| > MaxOutput {
      var t := Truncate(s);
      assert t[..MaxOutput] == s[..MaxOutput];
      assert t[|t| - |TruncationSuffix|..] == TruncationSuffix;
    }
  }

  /** The check on carried-over tool bindings drops nothing the last test would keep: a
      variable is kept exactly when its name does not start with `__`, it is no module,
      function or class, and it is JSON-serialisable. */
  lemma KeepIff(k: string, v: Value, context: map<string, Value>)
    ensures Keep(k, v, context) <==> !StartsWith(k, "__") && v.kind == Data && v.jsonable
  {
  }

  /** The carried-over variables are those namespace entries that pass the filter, in the
      namespace's order, with their values. */
  lemma {:induction false} PersistedIff(ks: seq<string>, vals: map<string, Value>, context: map<string, Value>, k: string)
    requires forall i :: 0 <= i < |ks| ==> ks[i] in vals
    requires forall i, j :: 0 <= i < j < |ks| ==> ks[i] != ks[j]
    ensures var p := PersistedOf(ks, vals, context);
      && (k in p.vals <==> k in ks && !StartsWith(k, "__") && vals[k].kind == Data && vals[k].jsonable)
      && (k in p.vals ==> p.vals[k] == vals[k])
    decreases |ks|
  {
    if ks != [] {
      var n := |ks| - 1;
      PersistedIff(ks[..n], vals, context, k);
      KeepIff(ks[n], vals[ks[n]], context);
      assert ks == ks[..n] + [ks[n]];
      if k == ks[n] {
        assert k !in ks[..n];
      }
    }
  }

  /** Every carried-over variable keeps its place relative to the others. */
  lemma {:induction false} PersistedOrder(ks: seq<string>, vals: map<string, Value>, context: map<string, Value>)
    requires forall i :: 0 <= i < |ks| ==> ks[i] in vals
    requires forall i, j :: 0 <= i < j < |ks| ==> ks[i] != ks[j]
    ensures PersistedOf(ks, vals, context).keys == KeptKeys(ks, vals, context)
    decreases |ks|
  {
    if ks != [] {
      var n := |ks| - 1;
      PersistedOrder(ks[..n], vals, context);
      PersistedFrom(ks[..n], vals, context, ks[n]);
      assert ks[n] !in ks[..n];
    }
  }

  /** The names that pass the filter, in order, one entry per occurrence. */
  function KeptKeys(ks: seq<string>, vals: map<string, Value>, context: map<string, Value>): seq<string>
    requires forall i :: 0 <= i < |ks| ==> ks[i] in vals
    decreases |ks|
  {
    if ks == [] then []
    else
      var k := ks[|ks| - 1];
      KeptKeys(ks[..|ks| - 1], vals, context) + (if Keep(k, vals[k], context) then [k] else [])
  }

  lemma {:induction false} PersistedFrom(ks: seq<string>, vals: map<string, Value>, context: map<string, Value>, k: string)
    requires forall i :: 0 <= i < |ks| ==> ks[i] in vals
    ensures k in PersistedOf(ks, vals, context).vals ==> k in ks
    decreases |ks|
  {
    if ks != [] {
      PersistedFrom(ks[..|ks| - 1], vals, context, k);
    }
  }
}
