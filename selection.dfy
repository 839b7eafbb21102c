/**
 * The comma-list parser that ItemSelector.selectMultipleItems and
 * ReturnHandler.returnMultipleItems both run over their numbered lists: the input is split on
 * ',', each piece is trimmed and parsed, and a number n in 1..size picks entry n-1.  Invalid
 * pieces are dropped silently and repeated numbers pick the same entry again.
 */
module Selection {
  import opened Wrappers
  import opened Text

  /** The list index a token names, if it names one of `size` entries. */
  function Choice(token: string, size: nat): (k: Option<nat>)
    ensures k.Some? ==> k.value < size && ParseInt(Trim(token)) == Some(k.value + 1)
    ensures k.None? ==> match ParseInt(Trim(token)) case None => true case Some(n) => n <= 0 || n > size
  {
    match ParseInt(Trim(token))
    case None => None
    case Some(n) => if n > 0 && n <= size then Some(n - 1) else None
  }

  /** The entries the tokens pick, in token order. */
  function Selected<T>(tokens: seq<string>, pool: seq<T>): (r: seq<T>)
    ensures |r| <= |tokens|
  {
    if |tokens| == 0 then []
    else
      var prev := Selected(tokens[..|tokens| - 1], pool);
      match Choice(tokens[|tokens| - 1], |pool|)
      case None => prev
      case Some(k) => prev + [pool[k]]
  }

  /** The selection of a concatenation is the concatenation of the selections. */
  lemma {:induction false} SelectedAppend<T>(a: seq<string>, b: seq<string>, pool: seq<T>)
    ensures Selected(a + b, pool) == Selected(a, pool) + Selected(b, pool)
    decreases |b|
  {
    if |b| > 0 {
      var b' := b[..|b| - 1];
      assert (a + b)[..|a + b| - 1] == a + b';
      assert (a + b)[|a + b| - 1] == b[|b| - 1];
      SelectedAppend(a, b', pool);
    } else {
      assert a + b == a;
    }
  }

  /** A number typed twice picks its entry twice; nothing removes duplicates. */
  lemma DuplicateKept<T>(tokens: seq<string>, t: string, pool: seq<T>)
    requires Choice(t, |pool|).Some?
    ensures Selected(tokens + [t, t], pool)
         == Selected(tokens, pool) + [pool[Choice(t, |pool|).value], pool[Choice(t, |pool|).value]]
  {
    var k := Choice(t, |pool|).value;
    assert [t][..0] == [];
    assert Selected([t], pool) == [pool[k]];
    assert [t, t][..1] == [t];
    assert Selected([t, t], pool) == [pool[k], pool[k]];
    SelectedAppend(tokens, [t, t], pool);
  }

  /** A token that names no entry adds nothing. */
  lemma InvalidDropped<T>(tokens: seq<string>, t: string, pool: seq<T>)
    requires Choice(t, |pool|).None?
    ensures Selected(tokens + [t], pool) == Selected(tokens, pool)
  {
    assert (tokens + [t])[..|tokens|] == tokens;
  }

  /** One more token: its entry, if it names one, is appended to the selection so far. */
  lemma SelectedStep<T>(tokens: seq<string>, i: nat, pool: seq<T>)
    requires i < |tokens|
    ensures Selected(tokens[..i + 1], pool)
         == match Choice(tokens[i], |pool|)
            case None => Selected(tokens[..i], pool)
            case Some(k) => Selected(tokens[..i], pool) + [pool[k]]
  {
    assert tokens[..i + 1][..i] == tokens[..i];
  }

  /** The parsing loop: split the (already trimmed) input on commas and pick as above. */
  method ParseSelection<T>(input: string, pool: seq<T>) returns (selected: seq<T>)
    ensures selected == Selected(Split(input, ','), pool)
  {
    var selections := Split(input, ',');
    selected := [];
    for i := 0 to |selections|
      invariant selected == Selected(selections[..i], pool)
    {
      SelectedStep(selections, i, pool);
      var picked := Choice(selections[i], |pool|);
      if picked.Some? {
        selected := selected + [pool[picked.value]];
      }
    }
    assert selections[..|selections|] == selections;
  }
}
