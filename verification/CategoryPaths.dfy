/** Category breadcrumbs: names joined by " > ", and splitting them again. */
module CategoryPaths {
  import opened Common
  import opened Text

  const SEPARATOR := " > "

  /** Where the separator first occurs at or after `i`. */
  function FindFrom(text: string, i: nat): (r: Option<nat>)
    requires i <= |text|
    ensures r.Some? ==> i <= r.value <= |text| - 3
    decreases |text| - i
  {
    if |text| < i + 3 then None
    else if text[i..i + 3] == SEPARATOR then Some(i)
    else FindFrom(text, i + 1)
  }

  /** `text.split(" > ")`. */
  function Split(text: string): seq<string>
    decreases |text|
  {
    match FindFrom(text, 0)
    case None => [text]
    case Some(i) => [text[..i]] + Split(text[i + 3..])
  }

  /** Without its angle bracket the separator is not there. */
  lemma {:induction false} NotFound(name: string, i: nat)
    requires '>' !in name && i <= |name|
    ensures FindFrom(name, i) == None
    decreases |name| - i
  {
    if i + 3 <= |name| {
      assert name[i..i + 3][1] == name[i + 1] && SEPARATOR[1] == '>';
      NotFound(name, i + 1);
    }
  }

  lemma {:induction false} FoundAfterName(name: string, rest: string, i: nat)
    requires '>' !in name && i <= |name|
    ensures FindFrom(name + SEPARATOR + rest, i) == Some(|name|)
    decreases |name| - i
  {
    var text := name + SEPARATOR + rest;
    if i == |name| {
      assert text[i..i + 3] == SEPARATOR;
    } else {
      assert text[i..i + 3][1] == text[i + 1] && SEPARATOR[1] == '>' && SEPARATOR[0] == ' ';
      assert text[i + 1] == if i + 1 < |name| then name[i + 1] else ' ';
      FoundAfterName(name, rest, i + 1);
    }
  }

  /** Splitting undoes joining, as long as no name has the angle bracket in it. */
  lemma {:induction false} SplitUndoesJoin(names: seq<string>)
    requires names != [] && forall n | n in names :: '>' !in n
    ensures Split(Join(names, SEPARATOR)) == names
  {
    if |names| == 1 {
      NotFound(names[0], 0);
    } else {
      var rest := Join(names[1..], SEPARATOR);
      FoundAfterName(names[0], rest, 0);
      assert forall n | n in names[1..] :: n in names;
      SplitUndoesJoin(names[1..]);
      var text := names[0] + SEPARATOR + rest;
      assert text[..|names[0]|] == names[0] && text[|names[0]| + 3..] == rest;
    }
  }

  lemma {:induction false} JoinAppend(names: seq<string>, name: string)
    requires names != []
    ensures Join(names + [name], SEPARATOR) == Join(names, SEPARATOR) + SEPARATOR + name
  {
    if |names| == 1 {
      assert (names + [name])[1..] == [name];
    } else {
      assert (names + [name])[1..] == names[1..] + [name];
      JoinAppend(names[1..], name);
    }
  }
}
