/** The context a validation runs in: a stack of path segments, and the errors and transformation records so far. */
module ValidationContexts {
  import opened Values
  import opened ErrorPaths
  import opened Schemas
  import QueryRoundTrip

  lemma ThenAssociative(a: Out, b: Out, c: Out)
    ensures Then(Then(a, b), c) == Then(a, Then(b, c))
  {
    assert (a.errors + b.errors) + c.errors == a.errors + (b.errors + c.errors);
    assert (a.records + b.records) + c.records == a.records + (b.records + c.records);
  }

  lemma ThenNothing(a: Out)
    ensures Then(a, NOTHING) == a == Then(NOTHING, a)
    ensures forall path :: At(path, []) == NOTHING
  {
    assert a.errors + [] == a.errors && a.records + [] == a.records;
    assert [] + a.errors == a.errors && [] + a.records == a.records;
  }

  class ValidationContext {
    var path: seq<string>
    var errors: seq<FieldError>
    var transformations: seq<Record>
    const mode: Mode

    constructor (mode: Mode)
      ensures this.mode == mode && path == [] && State() == NOTHING
    {
      this.mode := mode;
      path, errors, transformations := [], [], [];
    }

    /** Everything appended so far. */
    function State(): Out
      reads this
    {
      Out(errors, transformations)
    }

    method Reset()
      modifies this
      ensures path == [] && State() == NOTHING
    {
      path, errors, transformations := [], [], [];
    }

    method PushPath(segment: string)
      modifies this`path
      ensures path == old(path) + [segment]
    {
      path := path + [segment];
    }

    method PushIndex(index: nat)
      modifies this`path
      ensures path == old(path) + [IndexSegment(index)]
    {
      path := path + ["[" + QueryRoundTrip.Decimal(index) + "]"];
    }

    method PopPath()
      modifies this`path
      ensures path == if old(path) == [] then [] else old(path)[..|old(path)| - 1]
    {
      if |path| > 0 {
        path := path[..|path| - 1];
      }
    }

    method CurrentPath() returns (result: string)
      ensures result == PathText(path)
    {
      result := "";
      if |path| == 0 {
        return;
      }
      for i := 0 to |path|
        invariant i == 0 ==> result == ""
        invariant i > 0 ==> result + Links(path[i..]) == PathText(path)
      {
        assert i > 0 ==> path[i..][0] == path[i] && path[i..][1..] == path[i + 1..];
        ghost var before := result;
        if i > 0 && !StartsWithBracket(path[i]) {
          result := result + ".";
        }
        result := result + path[i];
        if i > 0 {
          assert result == before + Link(path[i]);
          Associative(before, Link(path[i]), Links(path[i + 1..]));
        }
      }
      assert result + "" == result;
    }

    method AddError(message: Message, value: Value)
      modifies this`errors
      ensures State() == Then(old(State()), At(path, [Fault(message, value)]))
    {
      var where := CurrentPath();
      errors := errors + [FieldError(where, message, value)];
      assert Located(where, [Fault(message, value)]) == [FieldError(where, message, value)];
    }

    /** WithPath around a single AddError. */
    method AddErrorUnder(segment: string, message: Message, value: Value)
      modifies this
      ensures path == old(path)
      ensures State() == Then(old(State()), At(path + [segment], [Fault(message, value)]))
    {
      PushPath(segment);
      AddError(message, value);
      PopPath();
    }

    method RecordTransformation(original: Value, result: Value, step: nat)
      modifies this`transformations
      ensures State() == Then(old(State()), Out([], [Record(PathText(path), original, result, step)]))
    {
      var where := CurrentPath();
      transformations := transformations + [Record(where, original, result, step)];
    }

    /** CheckRequired of the base schema: whether validation goes on. */
    method CheckRequired(base: Base, value: Value) returns (more: bool)
      modifies this`errors
      ensures more == !value.Null?
      ensures more ==> State() == old(State())
      ensures !more ==> State() == Then(old(State()), At(path, NullFaults(base)))
    {
      if value.Null? {
        if base.required {
          AddError(FieldRequired, Null);
          return false;
        }
        if !base.nullable {
          AddError(CannotBeNull, Null);
          return false;
        }
        ThenNothing(State());
        return false;
      }
      return true;
    }
  }
}
