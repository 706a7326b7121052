/** `parse_labels` of facebook_downloader/downloader.py: every ad label whose
    name contains `{key=value}` (both parts non-empty runs over the character
    class `[a-zA-Z|_]`) contributes the entry `Title(Lower(key)) -> value`;
    a later label overwrites an earlier one with the same key.

    The regular-expression search `re.search` is modelled as a leftmost-match
    function and proved against a declarative statement of the pattern;
    `str.lower` and `str.title` are modelled on ASCII characters, the only
    characters the pattern's groups can hold. */
module Labels {
  import opened Wrappers

  /** An ad label as the API returns it; only `name` is read. */
  datatype Label = Label(id: string, name: string)

  /** One occurrence of the pattern: where it starts and its two groups. */
  datatype Match = Match(start: nat, key: string, value: string)

  /** Membership in the character class `[a-zA-Z|_]` (the `|` is literal). */
  predicate IsLabelChar(c: char) {
    ('a' <= c <= 'z') || ('A' <= c <= 'Z') || c == '|' || c == '_'
  }

  /** A match of `[a-zA-Z|_]+`. */
  predicate IsLabelWord(w: string) {
    |w| > 0 && forall i :: 0 <= i < |w| ==> IsLabelChar(w[i])
  }

  /** The pattern `{([a-zA-Z|_]+)=([a-zA-Z|_]+)}` matches `s` at position
      `i` with groups `key` and `value`. */
  ghost predicate MatchesAt(s: string, i: int, key: string, value: string) {
    && 0 <= i
    && IsLabelWord(key)
    && IsLabelWord(value)
    && i + |key| + |value| + 3 <= |s|
    && s[i] == '{'
    && s[i + 1 .. i + 1 + |key|] == key
    && s[i + 1 + |key|] == '='
    && s[i + 2 + |key| .. i + 2 + |key| + |value|] == value
    && s[i + 2 + |key| + |value|] == '}'
  }

  /** End of the longest run of class characters starting at `j`. */
  function RunEnd(s: string, j: nat): (e: nat)
    requires j <= |s|
    ensures j <= e <= |s|
    ensures forall p :: j <= p < e ==> IsLabelChar(s[p])
    ensures e == |s| || !IsLabelChar(s[e])
    decreases |s| - j
  {
    if j == |s| || !IsLabelChar(s[j]) then j else RunEnd(s, j + 1)
  }

  /** The pattern tried at one position. The class excludes `=` and `}`, so
      greedy matching never needs to backtrack: each group is the longest
      run of class characters. */
  function MatchAt(s: string, i: nat): (r: Option<Match>)
    requires i < |s|
    ensures r.Some? ==> r.value.start == i && MatchesAt(s, i, r.value.key, r.value.value)
  {
    if s[i] != '{' then None
    else
      var j := RunEnd(s, i + 1);
      if j == i + 1 || j == |s| || s[j] != '=' then None
      else
        var k := RunEnd(s, j + 1);
        if k == j + 1 || k == |s| || s[k] != '}' then None
        else Some(Match(i, s[i + 1 .. j], s[j + 1 .. k]))
  }

  /** Where the pattern matches, MatchAt finds it, with the same groups: a
      match at a given position is unique. */
  lemma MatchAtComplete(s: string, i: nat, key: string, value: string)
    requires i < |s| && MatchesAt(s, i, key, value)
    ensures MatchAt(s, i) == Some(Match(i, key, value))
  {
    var j := i + 1 + |key|;
    forall p | i + 1 <= p < j ensures IsLabelChar(s[p]) {
      assert s[p] == key[p - (i + 1)];
    }
    var k := j + 1 + |value|;
    forall p | j + 1 <= p < k ensures IsLabelChar(s[p]) {
      assert s[p] == value[p - (j + 1)];
    }
  }

  /** `re.search` from position `from`: the first position where the
      pattern matches. */
  function SearchFrom(s: string, from: nat): (r: Option<Match>)
    requires from <= |s|
    ensures r.Some? ==> from <= r.value.start && MatchesAt(s, r.value.start, r.value.key, r.value.value)
    decreases |s| - from
  {
    if from == |s| then None
    else
      match MatchAt(s, from)
      case Some(m) => Some(m)
      case None => SearchFrom(s, from + 1)
  }

  function Search(s: string): Option<Match> {
    SearchFrom(s, 0)
  }

  /** The search finds the leftmost match: no match starts before the one
      it reports, and it reports nothing only when the pattern occurs
      nowhere at or after `from`. */
  lemma {:induction false} SearchFromLeftmost(s: string, from: nat, i: nat, key: string, value: string)
    requires from <= i < |s| && MatchesAt(s, i, key, value)
    ensures SearchFrom(s, from).Some?
    ensures SearchFrom(s, from).value.start <= i
    ensures SearchFrom(s, from).value.start == i ==> SearchFrom(s, from).value == Match(i, key, value)
    decreases i - from
  {
    if from == i {
      MatchAtComplete(s, i, key, value);
    } else if MatchAt(s, from).None? {
      SearchFromLeftmost(s, from + 1, i, key, value);
    }
  }

  /** The search reports a match exactly when the pattern occurs, and then
      the leftmost occurrence. */
  lemma SearchSpec(s: string)
    ensures Search(s).None? <==> forall i: nat, key, value :: !MatchesAt(s, i, key, value)
    ensures Search(s).Some? ==>
      var m := Search(s).value;
      && MatchesAt(s, m.start, m.key, m.value)
      && forall i: nat, key, value :: MatchesAt(s, i, key, value) ==> m.start < i || (m.start == i && m.key == key && m.value == value)
  {
    forall i: nat, key, value | MatchesAt(s, i, key, value)
      ensures Search(s).Some? && (Search(s).value.start < i || Search(s).value == Match(i, key, value))
    {
      SearchFromLeftmost(s, 0, i, key, value);
    }
  }

  predicate IsUpper(c: char) { 'A' <= c <= 'Z' }
  predicate IsLower(c: char) { 'a' <= c <= 'z' }
  /** A cased character, for the ASCII range. */
  predicate IsCased(c: char) { IsUpper(c) || IsLower(c) }

  function LowerChar(c: char): (r: char)
    ensures IsCased(r) == IsCased(c) && !IsUpper(r)
  {
    if IsUpper(c) then (c as int + 32) as char else c
  }

  function UpperChar(c: char): (r: char)
    ensures IsCased(r) == IsCased(c) && !IsLower(r)
  {
    if IsLower(c) then (c as int - 32) as char else c
  }

  /** `str.lower()`. */
  function Lower(s: string): (r: string)
    ensures |r| == |s|
    ensures forall i :: 0 <= i < |s| ==> r[i] == LowerChar(s[i])
  {
    if s == [] then [] else [LowerChar(s[0])] + Lower(s[1..])
  }

  /** `str.title()` as CPython computes it: a character is lower-cased when
      the character before it in the input is cased, title-cased otherwise. */
  function TitleFrom(s: string, previousIsCased: bool): (r: string)
    ensures |r| == |s|
  {
    if s == [] then []
    else
      var c := if previousIsCased then LowerChar(s[0]) else UpperChar(s[0]);
      [c] + TitleFrom(s[1..], IsCased(s[0]))
  }

  function Title(s: string): string {
    TitleFrom(s, false)
  }

  /** Every cased character that starts a word (first, or after an uncased
      character) is upper case in `title()`; every other one is lower case. */
  lemma {:induction false} TitleFromAt(s: string, previousIsCased: bool, p: nat)
    requires p < |s|
    ensures TitleFrom(s, previousIsCased)[p] ==
      if (p == 0 && previousIsCased) || (p > 0 && IsCased(s[p - 1])) then LowerChar(s[p]) else UpperChar(s[p])
  {
    if p > 0 {
      TitleFromAt(s[1..], IsCased(s[0]), p - 1);
    }
  }

  /** The character a key normalises to at position `p`: a cased character
      that starts a word (first, or after an uncased character) becomes
      upper case, every other one lower case. */
  function NormalisedChar(key: string, p: nat): char
    requires p < |key|
  {
    if p > 0 && IsCased(key[p - 1]) then LowerChar(key[p]) else UpperChar(key[p])
  }

  /** Lower-casing first changes neither the lower- nor the upper-case form. */
  lemma LowerThenCase(c: char)
    ensures LowerChar(LowerChar(c)) == LowerChar(c)
    ensures UpperChar(LowerChar(c)) == UpperChar(c)
  {
  }

  lemma NormaliseKeyAt(key: string, p: nat)
    requires p < |key|
    ensures Title(Lower(key))[p] == NormalisedChar(key, p)
  {
    var lowered := Lower(key);
    TitleFromAt(lowered, false, p);
    LowerThenCase(key[p]);
    assert lowered[p] == LowerChar(key[p]);
    if p > 0 {
      assert IsCased(lowered[p - 1]) == IsCased(key[p - 1]);
    }
  }

  /** The key normalisation `key.strip().lower().title()`. The groups hold
      no whitespace, so `strip()` changes nothing. */
  function NormaliseKey(key: string): (r: string)
    ensures |r| == |key|
    ensures forall p :: 0 <= p < |key| ==> r[p] == NormalisedChar(key, p)
  {
    assert forall p :: 0 <= p < |key| ==> Title(Lower(key))[p] == NormalisedChar(key, p) by {
      forall p | 0 <= p < |key| ensures Title(Lower(key))[p] == NormalisedChar(key, p) {
        NormaliseKeyAt(key, p);
      }
    }
    Title(Lower(key))
  }

  /** For example, `my_key` becomes `My_Key`. */
  lemma NormaliseKeyExample()
    ensures NormaliseKey("my_key") == "My_Key"
  {
    var r := NormaliseKey("my_key");
    assert r[0] == 'M' && r[1] == 'y' && r[2] == '_' && r[3] == 'K' && r[4] == 'e' && r[5] == 'y';
  }

  /** The entry one label contributes, if its name matches the pattern. */
  function LabelEntry(adLabel: Label): Option<(string, string)> {
    match Search(adLabel.name)
    case None => None
    case Some(m) => Some((NormaliseKey(m.key), m.value))
  }

  /** The label sets `key` (its name matches and the normalised key is `key`). */
  predicate SetsKey(adLabel: Label, key: string) {
    LabelEntry(adLabel).Some? && LabelEntry(adLabel).value.0 == key
  }

  /** The dictionary after the labels in order have been processed. */
  function LabelsDict(labels: seq<Label>): map<string, string> {
    if labels == [] then map[]
    else
      var d := LabelsDict(labels[..|labels| - 1]);
      match LabelEntry(labels[|labels| - 1])
      case None => d
      case Some((k, v)) => d[k := v]
  }

  /** `parse_labels`: the loop filling `labels_dict`. */
  method ParseLabels(labels: seq<Label>) returns (labelsDict: map<string, string>)
    ensures labelsDict == LabelsDict(labels)
    ensures forall key :: key in labelsDict ==> exists i :: 0 <= i < |labels| && SetsKey(labels[i], key)
  {
    labelsDict := map[];
    for n := 0 to |labels|
      invariant labelsDict == LabelsDict(labels[..n])
      invariant forall key :: key in labelsDict ==> exists i :: 0 <= i < n && SetsKey(labels[i], key)
    {
      assert labels[..n + 1][..n] == labels[..n];
      match Search(labels[n].name)
      case None =>
      case Some(m) =>
        var key := NormaliseKey(m.key);
        var value := m.value;
        labelsDict := labelsDict[key := value];
    }
    assert labels[..|labels|] == labels;
  }

  /** Only keys of matching labels appear. */
  lemma {:induction false} LabelsDictKeys(labels: seq<Label>, key: string)
    ensures key in LabelsDict(labels) <==> exists i :: 0 <= i < |labels| && SetsKey(labels[i], key)
  {
    if labels != [] {
      var n := |labels| - 1;
      var init := labels[..n];
      LabelsDictKeys(init, key);
      assert key in LabelsDict(labels) <==> key in LabelsDict(init) || SetsKey(labels[n], key);
      assert forall i :: 0 <= i < n ==> init[i] == labels[i];
    }
  }

  /** The example label `{key_1=value_1}` of the function's documentation
      contributes no entry: digits are outside the character class, so its
      name does not match the pattern. */
  lemma DocumentedExampleIgnored()
    ensures Search("{key_1=value_1}").None?
    ensures LabelsDict([Label("1", "{key_1=value_1}")]) == map[]
  {
    var s := "{key_1=value_1}";
    NoMatchWithDigitInKey(s);
    var labels := [Label("1", s)];
    assert labels[..0] == [];
  }

  /** The search finds nothing in that name: the key run stops at the digit. */
  lemma NoMatchWithDigitInKey(s: string)
    requires s == "{key_1=value_1}"
    ensures Search(s).None?
  {
    assert RunEnd(s, 1) == 5 by {
      assert forall p :: 1 <= p < 5 ==> IsLabelChar(s[p]);
      assert !IsLabelChar(s[5]);
    }
    assert MatchAt(s, 0).None?;
    assert forall p :: 1 <= p < |s| ==> s[p] != '{';
    assert SearchFrom(s, 1).None?;
  }

  /** The value of a key is the value of the last label that sets it. */
  lemma {:induction false} LabelsDictLastWins(labels: seq<Label>, i: nat, key: string)
    requires i < |labels| && SetsKey(labels[i], key)
    requires forall j :: i < j < |labels| ==> !SetsKey(labels[j], key)
    ensures key in LabelsDict(labels)
    ensures LabelsDict(labels)[key] == LabelEntry(labels[i]).value.1
  {
    var init := labels[..|labels| - 1];
    if i < |labels| - 1 {
      forall j | i < j < |init| ensures !SetsKey(init[j], key) {
        assert init[j] == labels[j];
      }
      LabelsDictLastWins(init, i, key);
    }
  }
}
