/** The professional-information section of the profile: the three tag
    lists (certifications, specialties, languages), each edited by a select
    that appends the picked option and a remove button on every tag, and
    the years-of-experience input. */
module ProfessionalInfo {
  import opened Wrappers
  import opened Text
  import opened JsNumber

  /** The three tag lists of the section. */
  datatype ListField = Certifications | Specialties | Languages

  /** The profile field a list is stored under. */
  function FieldKey(f: ListField): string {
    match f
    case Certifications => "certifications"
    case Specialties => "specialties"
    case Languages => "languages_spoken"
  }

  /** The lists of the (partial) profile being edited; `None` is a list that
      is absent or `null`. */
  datatype Lists = Lists(
    certifications: Option<seq<string>>,
    specialties: Option<seq<string>>,
    languages: Option<seq<string>>)

  function ListOf(data: Lists, f: ListField): Option<seq<string>> {
    match f
    case Certifications => data.certifications
    case Specialties => data.specialties
    case Languages => data.languages
  }

  /** The profile lists once the parent has stored `list` under `f`'s key. */
  function WithList(data: Lists, f: ListField, list: Option<seq<string>>): (r: Lists)
    ensures ListOf(r, f) == list
    ensures forall g :: g != f ==> ListOf(r, g) == ListOf(data, g)
  {
    match f
    case Certifications => data.(certifications := list)
    case Specialties => data.(specialties := list)
    case Languages => data.(languages := list)
  }

  /** One `onChange(field, value)` call of the section. */
  datatype ListChange = ListChange(key: string, value: Option<seq<string>>)

  /** The select's change handler. The placeholder option has the empty
      value and triggers no call; a disabled select fires no event. Any other
      pick is appended after the current entries, an absent list counting as
      empty. */
  function SelectOption(data: Lists, f: ListField, value: string, disabled: bool): (r: Option<ListChange>)
    ensures r.None? <==> disabled || value == ""
    ensures r.Some? ==> r.value.key == FieldKey(f) && r.value.value.Some?
    ensures r.Some? ==>
      var before := ListOf(data, f).GetOr([]);
      var after := r.value.value.value;
      |after| == |before| + 1 && after[..|before|] == before && after[|before|] == value
  {
    if disabled || value == "" then None
    else Some(ListChange(FieldKey(f), Some(ListOf(data, f).GetOr([]) + [value])))
  }

  /** `list.filter(x => x !== entry)`. */
  function RemoveAll(xs: seq<string>, entry: string): (r: seq<string>)
    ensures entry !in r
    ensures forall y :: y != entry ==> multiset(r)[y] == multiset(xs)[y]
  {
    if xs == [] then []
    else
      assert xs == [xs[0]] + xs[1..];
      (if xs[0] == entry then [] else [xs[0]]) + RemoveAll(xs[1..], entry)
  }

  /** The remove button of a tag. It is rendered only while the section is
      enabled; it stores the list with every entry equal to the tag dropped
      (an absent list stays absent). */
  function RemoveTag(data: Lists, f: ListField, entry: string, disabled: bool): (r: Option<ListChange>)
    ensures r.None? <==> disabled
    ensures r.Some? ==> r.value.key == FieldKey(f)
    ensures r.Some? ==> (r.value.value.None? <==> ListOf(data, f).None?)
    ensures r.Some? && r.value.value.Some? ==>
      var before := ListOf(data, f).value;
      var after := r.value.value.value;
      entry !in after && forall y :: y != entry ==> multiset(after)[y] == multiset(before)[y]
  {
    if disabled then None
    else match ListOf(data, f)
      case None => Some(ListChange(FieldKey(f), None))
      case Some(xs) => Some(ListChange(FieldKey(f), Some(RemoveAll(xs, entry))))
  }

  /** An option of the select is disabled once it is in the list. */
  predicate OptionDisabled(data: Lists, f: ListField, option: string) {
    ListOf(data, f).Some? && option in ListOf(data, f).value
  }

  predicate NoDuplicates(xs: seq<string>) {
    forall i, j :: 0 <= i < j < |xs| ==> xs[i] != xs[j]
  }

  /** Removal keeps the surviving entries in their order: it distributes
      over concatenation, and leaves a list without the entry untouched. */
  lemma {:induction false} RemoveAllConcat(a: seq<string>, b: seq<string>, entry: string)
    ensures RemoveAll(a + b, entry) == RemoveAll(a, entry) + RemoveAll(b, entry)
  {
    if a != [] {
      assert (a + b)[0] == a[0];
      assert (a + b)[1..] == a[1..] + b;
      RemoveAllConcat(a[1..], b, entry);
    } else {
      assert a + b == b;
    }
  }

  lemma {:induction false} RemoveAbsentIsIdentity(xs: seq<string>, entry: string)
    requires entry !in xs
    ensures RemoveAll(xs, entry) == xs
  {
    if xs != [] {
      RemoveAbsentIsIdentity(xs[1..], entry);
    }
  }

  /** Picking an option that is not in the list and then removing its tag
      gives back the list as it was (an absent list comes back empty). */
  lemma AddThenRemoveRestores(data: Lists, f: ListField, value: string)
    requires value != "" && !OptionDisabled(data, f, value)
    ensures
      var added := SelectOption(data, f, value, false).value;
      var stored := WithList(data, f, added.value);
      RemoveTag(stored, f, value, false).value.value == Some(ListOf(data, f).GetOr([]))
  {
    var before := ListOf(data, f).GetOr([]);
    var added := SelectOption(data, f, value, false).value;
    assert added.value == Some(before + [value]);
    var stored := WithList(data, f, added.value);
    assert ListOf(stored, f) == Some(before + [value]);
    assert value !in before;
    RemoveAllConcat(before, [value], value);
    RemoveAbsentIsIdentity(before, value);
    assert RemoveAll([value], value) == [];
    assert RemoveAll(before + [value], value) == before;
  }

  /** The handler itself does not deduplicate, but since the options already
      in the list are disabled, a pick keeps a duplicate-free list free of
      duplicates. */
  lemma EnabledPickKeepsNoDuplicates(data: Lists, f: ListField, value: string)
    requires value != "" && !OptionDisabled(data, f, value)
    requires NoDuplicates(ListOf(data, f).GetOr([]))
    ensures NoDuplicates(SelectOption(data, f, value, false).value.value.value)
  {
  }

  /** Removing a tag keeps a duplicate-free list free of duplicates. */
  lemma {:induction false} RemovalKeepsNoDuplicates(xs: seq<string>, entry: string)
    requires NoDuplicates(xs)
    ensures NoDuplicates(RemoveAll(xs, entry))
  {
    if xs != [] {
      RemovalKeepsNoDuplicates(xs[1..], entry);
      var rest := RemoveAll(xs[1..], entry);
      if xs[0] != entry {
        assert xs[0] !in xs[1..];
        assert multiset(rest)[xs[0]] == 0;
      }
    }
  }

  /** The years-of-experience handler: `parseInt(value) || null`. A number
      that parses to anything but zero is stored; zero (or negative zero)
      and text that does not parse store `null`. */
  function YearsExperience(input: string): (r: Option<int>)
    ensures r.Some? <==> ParseInt(input).Some? && ParseInt(input).value != 0
    ensures r.Some? ==> r == ParseInt(input)
  {
    match ParseInt(input)
    case None => None
    case Some(v) => if v == 0 then None else Some(v)
  }

  /** Entering a positive number stores that number; entering `0` or
      clearing the input stores `null`. */
  lemma YearsExperienceRoundTrip(n: nat)
    ensures n > 0 ==> YearsExperience(NatToString(n)) == Some(n)
    ensures YearsExperience(NatToString(0)) == None
    ensures YearsExperience("") == None
  {
    ParseIntOfDecimal(n, "");
    ParseIntOfDecimal(0, "");
    assert NatToString(n) + "" == NatToString(n);
    assert NatToString(0) + "" == NatToString(0);
    ParseIntWithoutDigits("", "", "");
    assert "" + "" + "" == "";
  }
}
