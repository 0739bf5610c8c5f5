/** `getInitials`: the avatar initials of a display name. */
module UserProfile {
  import opened Common
  import opened Text

  /** `name.charAt(0).toUpperCase()`: empty for an empty name. */
  function Initial(name: string): (r: string)
    ensures name == [] ==> r == []
    ensures name != [] ==> r == [UpperChar(name[0])]
  {
    if name == [] then [] else Upper(name[..1])
  }

  /** `parts.join('')` */
  function Concat(parts: seq<string>): (r: string)
    ensures |r| == 0 <==> forall i | 0 <= i < |parts| :: parts[i] == []
  {
    if parts == [] then [] else parts[0] + Concat(parts[1..])
  }

  /** `names.slice(0, 2).map(initial).join('')` */
  function InitialsOf(names: seq<string>): (r: string)
    ensures |r| <= 2
    ensures names == [] ==> r == []
    ensures |names| == 1 ==> r == Initial(names[0])
    ensures |names| >= 2 ==> r == Initial(names[0]) + Initial(names[1])
  {
    var firstTwo := MapSeq(Take(names, 2), Initial);
    if |names| >= 2 then
      assert firstTwo == [Initial(names[0]), Initial(names[1])];
      assert Concat(firstTwo) == Initial(names[0]) + (Initial(names[1]) + Concat([]));
      Concat(firstTwo)
    else if |names| == 1 then
      assert firstTwo == [Initial(names[0])];
      assert Concat(firstTwo) == Initial(names[0]) + Concat([]);
      Concat(firstTwo)
    else
      Concat(firstTwo)
  }

  /**
   * `getInitials(displayName)`, with `None` for `null` and `undefined`: the
   * initials of the first two pieces of the trimmed name split on single
   * spaces, or `"??"` when there are none.
   */
  function GetInitials(displayName: Option<string>): (r: string)
    ensures displayName.None? || displayName == Some("") ==> r == "??"
    ensures r == "??" || 1 <= |r| <= 2
  {
    if displayName.None? || displayName.value == "" then "??"
    else
      var initials := InitialsOf(Split(Trim(displayName.value), ' '));
      if initials == "" then "??" else initials
  }

  /** A name made only of white space has no initials. */
  lemma BlankNameHasNoInitials(name: string)
    requires Blank(name)
    ensures GetInitials(Some(name)) == "??"
  {
    if name != "" {
      TrimEmpty(name);
      assert Split("", ' ') == [""];
    }
  }

  /**
   * For a name without surrounding white space made of the single-space
   * separated pieces `words`, the initials are those of the first two pieces.
   * An empty second piece (two spaces in a row) contributes nothing.
   */
  lemma InitialsOfWords(words: seq<string>)
    requires |words| >= 1 && words[0] != []
    requires forall i | 0 <= i < |words| :: ' ' !in words[i]
    requires var s := Join(words, ' '); s != [] && !IsSpace(s[0]) && !IsSpace(s[|s| - 1])
    ensures GetInitials(Some(Join(words, ' ')))
      == [UpperChar(words[0][0])] + (if |words| > 1 then Initial(words[1]) else [])
  {
    var s := Join(words, ' ');
    assert TrimStart(s) == s;
    assert TrimEnd(s) == s;
    SplitJoin(words, ' ');
  }

  /** "Ann  Lee" splits into "Ann", "" and "Lee", so its initials are "A". */
  lemma DoubleSpaceKeepsOneInitial()
    ensures GetInitials(Some("Ann  Lee")) == "A"
  {
    var words := ["Ann", "", "Lee"];
    assert Join(words, ' ') == "Ann  Lee";
    InitialsOfWords(words);
  }
}
