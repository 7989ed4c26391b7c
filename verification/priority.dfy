/**
  Resource prioritisation. Every resource starts at the lowest priority
  (the smallest Java `int`). When the cluster names a priority field, each
  resource takes that field from its resource config if the config has it,
  otherwise from its ideal state if that has it; a value that does not parse
  as a Java `int` leaves the priority where it was. The resources are then
  sorted by decreasing priority with a stable sort, so resources of equal
  priority keep the order they were listed in. Without a priority field the
  list is left in its original order.
 */
module ResourcePrioritizer {
  import opened HelixTypes

  predicate IsDigit(c: char)
  {
    '0' <= c <= '9'
  }

  predicate AllDigits(s: string)
  {
    forall i :: 0 <= i < |s| ==> IsDigit(s[i])
  }

  function DigitValue(c: char): nat
    requires IsDigit(c)
  {
    (c as int) - ('0' as int)
  }

  /** The number a string of decimal digits denotes, most significant digit first. */
  function DigitsValue(s: string): nat
    requires AllDigits(s)
    decreases |s|
  {
    if s == [] then 0 else DigitsValue(s[..|s| - 1]) * 10 + DigitValue(s[|s| - 1])
  }

  /**
    Java's `Integer.parseInt` for decimal ASCII input: an optional `-` or `+`,
    then at least one digit, denoting a value inside the `int` range.
    Anything else is rejected, as the source's parse error is.
   */
  function ParseInt(s: string): (r: Option<int>)
    ensures r.Some? ==> INT_MIN <= r.value <= INT_MAX
    ensures r.Some? ==> |s| > 0
  {
    if |s| == 0 then None
    else
      var negative := s[0] == '-';
      var digits := if s[0] == '-' || s[0] == '+' then s[1..] else s;
      if |digits| == 0 || !AllDigits(digits) then None
      else
        var magnitude := DigitsValue(digits);
        var value: int := if negative then 0 - (magnitude as int) else magnitude;
        if INT_MIN <= value <= INT_MAX then Some(value) else None
  }

  function DigitChar(d: nat): (c: char)
    requires d < 10
    ensures IsDigit(c) && DigitValue(c) == d
  {
    ('0' as int + d) as char
  }

  /** Decimal digits of `n` without leading zeros. */
  function NatDigits(n: nat): (s: string)
    decreases n
  {
    if n < 10 then [DigitChar(n)] else NatDigits(n / 10) + [DigitChar(n % 10)]
  }

  /** `NatDigits` writes a non-empty digit string whose value is `n`. */
  lemma {:induction false} NatDigitsValue(n: nat)
    ensures |NatDigits(n)| > 0 && AllDigits(NatDigits(n))
    ensures DigitsValue(NatDigits(n)) == n
    decreases n
  {
    var s := NatDigits(n);
    if n >= 10 {
      NatDigitsValue(n / 10);
      var prefix := NatDigits(n / 10);
      assert s == prefix + [DigitChar(n % 10)];
      assert s[..|s| - 1] == prefix;
    }
  }

  /** Java's `Integer.toString`: a minus sign for negative values, then the digits of the magnitude. */
  function FormatInt(n: int): string
  {
    if n < 0 then "-" + NatDigits(-n) else NatDigits(n)
  }

  /** Parsing what `Integer.toString` writes gives back the value, for every Java `int`. */
  lemma ParseFormatRoundTrip(n: int)
    requires INT_MIN <= n <= INT_MAX
    ensures ParseInt(FormatInt(n)) == Some(n)
  {
    if n < 0 {
      NatDigitsValue(-n);
      assert FormatInt(n)[1..] == NatDigits(-n);
    } else {
      NatDigitsValue(n);
    }
  }

  /** A value outside the Java `int` range never parses. */
  lemma OutOfRangeRejected(n: int)
    requires n < INT_MIN || n > INT_MAX
    ensures ParseInt(FormatInt(n)).None?
  {
    if n < 0 {
      NatDigitsValue(-n);
      assert FormatInt(n)[1..] == NatDigits(-n);
    } else {
      NatDigitsValue(n);
    }
  }

  /** A character other than a digit, anywhere but as a leading sign, makes the text unparsable. */
  lemma ParseIntRejectsNonDigit(s: string, k: nat)
    requires k < |s| && !IsDigit(s[k])
    requires k > 0 || (s[0] != '-' && s[0] != '+')
    ensures ParseInt(s).None?
  {
    var digits := if s[0] == '-' || s[0] == '+' then s[1..] else s;
    if s[0] == '-' || s[0] == '+' {
      assert digits[k - 1] == s[k];
    } else {
      assert digits[k] == s[k];
    }
  }

  /** A text without any digit, such as a lone sign, is unparsable. */
  lemma ParseIntNeedsADigit(s: string)
    requires forall k :: 0 <= k < |s| ==> !IsDigit(s[k])
    ensures ParseInt(s).None?
  {
    if |s| > 1 {
      ParseIntRejectsNonDigit(s, 1);
    }
  }

  /** Digits without leading zeros, as `Integer.toString` writes them. */
  function StripZeros(d: string): (r: string)
    ensures |r| <= |d|
    decreases |d|
  {
    if d != [] && d[0] == '0' then StripZeros(d[1..]) else d
  }

  /**
    The canonical spelling of a decimal text: no `+`, no leading zeros, and
    no minus sign on zero.
   */
  function Canonical(s: string): string
  {
    var negative := |s| > 0 && s[0] == '-';
    var digits := if |s| > 0 && (s[0] == '-' || s[0] == '+') then s[1..] else s;
    var stripped := StripZeros(digits);
    if stripped == [] then "0" else if negative then "-" + stripped else stripped
  }

  /** A leading zero does not change the value of a digit string. */
  lemma {:induction false} LeadingZeroValue(d: string)
    requires AllDigits(d)
    ensures AllDigits("0" + d) && DigitsValue("0" + d) == DigitsValue(d)
    decreases |d|
  {
    var z := "0" + d;
    if d != [] {
      assert z[..|z| - 1] == "0" + d[..|d| - 1];
      LeadingZeroValue(d[..|d| - 1]);
    } else {
      assert z[..|z| - 1] == [];
    }
  }

  /** Stripping leading zeros keeps the value and leaves no leading zero. */
  lemma {:induction false} StripZerosValue(d: string)
    requires AllDigits(d)
    ensures AllDigits(StripZeros(d)) && DigitsValue(StripZeros(d)) == DigitsValue(d)
    ensures StripZeros(d) == [] || StripZeros(d)[0] != '0'
    decreases |d|
  {
    if d != [] && d[0] == '0' {
      StripZerosValue(d[1..]);
      assert d == "0" + d[1..];
      LeadingZeroValue(d[1..]);
    }
  }

  /** A digit string with a non-zero first digit denotes at least one. */
  lemma {:induction false} NoLeadingZeroPositive(d: string)
    requires AllDigits(d) && d != [] && d[0] != '0'
    ensures DigitsValue(d) >= 1
    decreases |d|
  {
    if |d| > 1 {
      NoLeadingZeroPositive(d[..|d| - 1]);
    }
  }

  /** A digit string without leading zeros is the one `Integer.toString` writes for its value. */
  lemma {:induction false} DigitsAreNatDigits(d: string)
    requires AllDigits(d) && d != [] && d[0] != '0'
    ensures NatDigits(DigitsValue(d)) == d
    decreases |d|
  {
    var n := DigitsValue(d);
    if |d| == 1 {
      assert DigitChar(DigitValue(d[0])) == d[0];
    } else {
      var prefix := d[..|d| - 1];
      NoLeadingZeroPositive(prefix);
      DigitsAreNatDigits(prefix);
      assert n / 10 == DigitsValue(prefix) && n % 10 == DigitValue(d[|d| - 1]);
      assert DigitChar(DigitValue(d[|d| - 1])) == d[|d| - 1];
      assert d == prefix + [d[|d| - 1]];
    }
  }

  /**
    Whatever text parses is a spelling of its value: dropping a `+`, the
    leading zeros and the sign of zero gives exactly what `Integer.toString`
    writes for the value.
   */
  lemma ParseIntSound(s: string)
    requires ParseInt(s).Some?
    ensures Canonical(s) == FormatInt(ParseInt(s).value)
  {
    var digits := if s[0] == '-' || s[0] == '+' then s[1..] else s;
    StripZerosValue(digits);
    var stripped := StripZeros(digits);
    if stripped != [] {
      DigitsAreNatDigits(stripped);
      NoLeadingZeroPositive(stripped);
    }
  }

  /** A leading `+` or extra leading zeros do not change what a text parses to. */
  lemma ParseIntNonCanonical(d: string)
    requires AllDigits(d) && d != []
    ensures ParseInt("+" + d) == ParseInt(d)
    ensures ParseInt("0" + d) == ParseInt(d)
  {
    assert ("+" + d)[1..] == d;
    LeadingZeroValue(d);
  }

  datatype ResourcePriority = ResourcePriority(name: ResourceName, priority: int)

  /** Sets the priority from a configured value; a value that does not parse leaves it unchanged. */
  function SetPriority(rp: ResourcePriority, value: string): (r: ResourcePriority)
    ensures r.name == rp.name
    ensures ParseInt(value).Some? ==> r.priority == ParseInt(value).value
    ensures ParseInt(value).None? ==> r == rp
  {
    match ParseInt(value)
    case Some(p) => rp.(priority := p)
    case None => rp
  }

  /** Simple fields of a record, by name. */
  type Fields = map<string, string>

  /**
    The priority of one resource under priority field `field`: its resource
    config's value when the config has the field (even one that does not
    parse, which then leaves the lowest priority), else its ideal state's
    value when that has the field, else the lowest priority.
   */
  function ResolvePriority(name: ResourceName, field: string,
                           resourceConfigs: map<ResourceName, Fields>,
                           idealStateFields: map<ResourceName, Fields>): (r: ResourcePriority)
    ensures r.name == name
    ensures INT_MIN <= r.priority <= INT_MAX
    ensures name in resourceConfigs && field in resourceConfigs[name]
            ==> r == SetPriority(ResourcePriority(name, INT_MIN), resourceConfigs[name][field])
    ensures !(name in resourceConfigs && field in resourceConfigs[name])
            && name in idealStateFields && field in idealStateFields[name]
            ==> r == SetPriority(ResourcePriority(name, INT_MIN), idealStateFields[name][field])
    ensures r.priority != INT_MIN ==> (name in resourceConfigs && field in resourceConfigs[name])
                                      || (name in idealStateFields && field in idealStateFields[name])
  {
    var initial := ResourcePriority(name, INT_MIN);
    if name in resourceConfigs && field in resourceConfigs[name] then
      SetPriority(initial, resourceConfigs[name][field])
    else if name in idealStateFields && field in idealStateFields[name] then
      SetPriority(initial, idealStateFields[name][field])
    else initial
  }

  /** Priorities never increase along the list. */
  predicate SortedDescending(s: seq<ResourcePriority>)
  {
    forall i, j :: 0 <= i < j < |s| ==> s[i].priority >= s[j].priority
  }

  /** The entries of priority `p`, in list order. */
  function WithPriority(s: seq<ResourcePriority>, p: int): (r: seq<ResourcePriority>)
    ensures |r| <= |s|
    decreases |s|
  {
    if s == [] then []
    else (if s[0].priority == p then [s[0]] else []) + WithPriority(s[1..], p)
  }

  /** Places `x` in front of the first entry whose priority is not above its own. */
  function Insert(x: ResourcePriority, s: seq<ResourcePriority>): (r: seq<ResourcePriority>)
    ensures multiset(r) == multiset(s) + multiset{x}
    decreases |s|
  {
    if s == [] || s[0].priority <= x.priority then [x] + s
    else
      assert s == [s[0]] + s[1..];
      [s[0]] + Insert(x, s[1..])
  }

  /** Inserting into a descending list keeps it descending. */
  lemma {:induction false} InsertSorted(x: ResourcePriority, s: seq<ResourcePriority>)
    requires SortedDescending(s)
    ensures SortedDescending(Insert(x, s))
    decreases |s|
  {
    if !(s == [] || s[0].priority <= x.priority) {
      var rest := s[1..];
      assert SortedDescending(rest);
      InsertSorted(x, rest);
      var r := Insert(x, s);
      var tail := Insert(x, rest);
      assert r == [s[0]] + tail;
      forall k | 0 <= k < |tail| ensures s[0].priority >= tail[k].priority {
        assert tail[k] in multiset(rest) + multiset{x};
        if tail[k] != x {
          assert tail[k] in rest;
        }
      }
    }
  }

  /**
    Inserting `x` puts it ahead of every entry of equal priority and changes
    the relative order of nothing else.
   */
  lemma {:induction false} InsertWithPriority(x: ResourcePriority, s: seq<ResourcePriority>, p: int)
    ensures WithPriority(Insert(x, s), p) == (if x.priority == p then [x] else []) + WithPriority(s, p)
    decreases |s|
  {
    if s == [] || s[0].priority <= x.priority {
      WithPriorityCons(x, s, p);
    } else {
      InsertWithPriority(x, s[1..], p);
      WithPriorityCons(s[0], Insert(x, s[1..]), p);
      assert s == [s[0]] + s[1..];
      WithPriorityCons(s[0], s[1..], p);
    }
  }

  /** Filtering a list that starts with `a`. */
  lemma WithPriorityCons(a: ResourcePriority, t: seq<ResourcePriority>, p: int)
    ensures WithPriority([a] + t, p) == (if a.priority == p then [a] else []) + WithPriority(t, p)
  {
    assert ([a] + t)[1..] == t;
  }

  /** A stable sort by decreasing priority (insertion sort, earliest entry first among equals). */
  function SortByPriority(s: seq<ResourcePriority>): (r: seq<ResourcePriority>)
    ensures multiset(r) == multiset(s)
    decreases |s|
  {
    if s == [] then []
    else
      assert s == [s[0]] + s[1..];
      Insert(s[0], SortByPriority(s[1..]))
  }

  /** The sorted list is descending. */
  lemma {:induction false} SortSorted(s: seq<ResourcePriority>)
    ensures SortedDescending(SortByPriority(s))
    decreases |s|
  {
    if s != [] {
      SortSorted(s[1..]);
      InsertSorted(s[0], SortByPriority(s[1..]));
    }
  }

  /** Stability: entries of equal priority keep their original relative order. */
  lemma {:induction false} SortStable(s: seq<ResourcePriority>, p: int)
    ensures WithPriority(SortByPriority(s), p) == WithPriority(s, p)
    decreases |s|
  {
    if s != [] {
      SortStable(s[1..], p);
      InsertWithPriority(s[0], SortByPriority(s[1..]), p);
    }
  }

  /** Every entry the filter keeps is an entry of the list with that priority. */
  lemma {:induction false} WithPriorityMember(s: seq<ResourcePriority>, p: int, x: ResourcePriority)
    requires x in WithPriority(s, p)
    ensures x in s && x.priority == p
    decreases |s|
  {
    if x !in (if s[0].priority == p then [s[0]] else []) {
      WithPriorityMember(s[1..], p, x);
    }
  }

  /** The head of a non-empty list leads the filter for its own priority. */
  lemma WithPriorityHead(s: seq<ResourcePriority>)
    requires s != []
    ensures WithPriority(s, s[0].priority) != [] && WithPriority(s, s[0].priority)[0] == s[0]
  {
  }

  /** The head of a descending list has the largest priority the list contains. */
  lemma SortedHeadIsMax(s: seq<ResourcePriority>, p: int)
    requires s != [] && SortedDescending(s) && WithPriority(s, p) != []
    ensures s[0].priority >= p
  {
    WithPriorityMember(s, p, WithPriority(s, p)[0]);
  }

  /**
    A descending list is determined by its per-priority subsequences: two
    descending lists that agree on the entries of every priority, in order,
    are equal. So any stable sort by decreasing priority, Java's included,
    gives exactly `SortByPriority`'s result.
   */
  lemma {:induction false} StableSortUnique(a: seq<ResourcePriority>, b: seq<ResourcePriority>)
    requires SortedDescending(a) && SortedDescending(b)
    requires forall p :: WithPriority(a, p) == WithPriority(b, p)
    ensures a == b
    decreases |a|
  {
    if a == [] {
      if b != [] {
        WithPriorityHead(b);
        assert false;
      }
    } else if b == [] {
      WithPriorityHead(a);
      assert false;
    } else {
      WithPriorityHead(a);
      WithPriorityHead(b);
      SortedHeadIsMax(a, b[0].priority);
      SortedHeadIsMax(b, a[0].priority);
      assert a[0] == b[0];
      forall p ensures WithPriority(a[1..], p) == WithPriority(b[1..], p) {
        assert a == [a[0]] + a[1..] && b == [b[0]] + b[1..];
        WithPriorityCons(a[0], a[1..], p);
        WithPriorityCons(b[0], b[1..], p);
        var h := if a[0].priority == p then [a[0]] else [];
        assert WithPriority(a[1..], p) == (h + WithPriority(a[1..], p))[|h|..];
        assert WithPriority(b[1..], p) == (h + WithPriority(b[1..], p))[|h|..];
      }
      StableSortUnique(a[1..], b[1..]);
      assert a == [a[0]] + a[1..] && b == [b[0]] + b[1..];
    }
  }

  /** The resolved priorities of the listed resources, in listed order. */
  function Resolved(names: seq<ResourceName>, field: string,
                    resourceConfigs: map<ResourceName, Fields>,
                    idealStateFields: map<ResourceName, Fields>): (r: seq<ResourcePriority>)
    ensures |r| == |names|
    ensures forall k :: 0 <= k < |r| ==> r[k].name == names[k]
  {
    seq(|names|, k requires 0 <= k < |names| => ResolvePriority(names[k], field, resourceConfigs, idealStateFields))
  }

  /**
    The processing order of the resources. Without a priority field every
    resource keeps the lowest priority and the listed order; with one, each
    resource's priority is resolved and the list is stably sorted by
    decreasing priority.
   */
  function Prioritize(names: seq<ResourceName>, priorityField: Option<string>,
                      resourceConfigs: map<ResourceName, Fields>,
                      idealStateFields: map<ResourceName, Fields>): (r: seq<ResourcePriority>)
    ensures |r| == |names|
    ensures priorityField.None? ==> forall k :: 0 <= k < |r| ==> r[k] == ResourcePriority(names[k], INT_MIN)
  {
    var initial := seq(|names|, k requires 0 <= k < |names| => ResourcePriority(names[k], INT_MIN));
    if priorityField.None? then initial
    else
      var resolved := Resolved(names, priorityField.value, resourceConfigs, idealStateFields);
      assert |multiset(resolved)| == |names|;
      SortByPriority(resolved)
  }

  /**
    With a priority field the order is descending, holds every resource once
    with its resolved priority, and keeps the listed order among resources of
    equal priority.
   */
  lemma PrioritizeOrder(names: seq<ResourceName>, field: string,
                        resourceConfigs: map<ResourceName, Fields>,
                        idealStateFields: map<ResourceName, Fields>)
    ensures var r := Prioritize(names, Some(field), resourceConfigs, idealStateFields);
            var resolved := Resolved(names, field, resourceConfigs, idealStateFields);
            && SortedDescending(r)
            && multiset(r) == multiset(resolved)
            && forall p :: WithPriority(r, p) == WithPriority(resolved, p)
  {
    var resolved := Resolved(names, field, resourceConfigs, idealStateFields);
    assert Prioritize(names, Some(field), resourceConfigs, idealStateFields) == SortByPriority(resolved);
    SortSorted(resolved);
    forall p ensures WithPriority(SortByPriority(resolved), p) == WithPriority(resolved, p) {
      SortStable(resolved, p);
    }
  }

  /**
    The prioritised order is the only descending order of the resolved
    resources that keeps the listed order among equal priorities.
   */
  lemma PrioritizeIsTheStableSort(names: seq<ResourceName>, field: string,
                                  resourceConfigs: map<ResourceName, Fields>,
                                  idealStateFields: map<ResourceName, Fields>, order: seq<ResourcePriority>)
    requires SortedDescending(order)
    requires forall p :: WithPriority(order, p) == WithPriority(Resolved(names, field, resourceConfigs, idealStateFields), p)
    ensures order == Prioritize(names, Some(field), resourceConfigs, idealStateFields)
  {
    PrioritizeOrder(names, field, resourceConfigs, idealStateFields);
    StableSortUnique(order, Prioritize(names, Some(field), resourceConfigs, idealStateFields));
  }
  /** The resource names of an order, in order. */
  function OrderNames(order: seq<ResourcePriority>): (r: seq<ResourceName>)
    ensures |r| == |order|
    ensures forall k :: 0 <= k < |r| ==> r[k] == order[k].name
  {
    seq(|order|, k requires 0 <= k < |order| => order[k].name)
  }

  /** Prioritising lists exactly the given resources, with or without a priority field. */
  lemma PrioritizeKeepsNames(names: seq<ResourceName>, priorityField: Option<string>,
                             resourceConfigs: map<ResourceName, Fields>,
                             idealStateFields: map<ResourceName, Fields>, n: ResourceName)
    ensures n in OrderNames(Prioritize(names, priorityField, resourceConfigs, idealStateFields)) <==> n in names
  {
    var order := OrderNames(Prioritize(names, priorityField, resourceConfigs, idealStateFields));
    if priorityField.Some? {
      var resolved := Resolved(names, priorityField.value, resourceConfigs, idealStateFields);
      PrioritizeOrder(names, priorityField.value, resourceConfigs, idealStateFields);
      SameMultisetSameNames(Prioritize(names, priorityField, resourceConfigs, idealStateFields), resolved, n);
      assert OrderNames(resolved) == names;
    } else if n in names {
      var k :| 0 <= k < |names| && names[k] == n;
      assert order[k] == n;
    }
  }

  /** Orders holding the same entries name the same resources. */
  lemma SameMultisetSameNames(a: seq<ResourcePriority>, b: seq<ResourcePriority>, n: ResourceName)
    requires multiset(a) == multiset(b)
    ensures n in OrderNames(a) <==> n in OrderNames(b)
  {
    if n in OrderNames(a) {
      NameFromMultiset(a, b, n);
    }
    if n in OrderNames(b) {
      NameFromMultiset(b, a, n);
    }
  }

  lemma NameFromMultiset(a: seq<ResourcePriority>, b: seq<ResourcePriority>, n: ResourceName)
    requires multiset(a) == multiset(b) && n in OrderNames(a)
    ensures n in OrderNames(b)
  {
    var j :| 0 <= j < |a| && OrderNames(a)[j] == n;
    assert a[j] in multiset(b);
    var k :| 0 <= k < |b| && b[k] == a[j];
    assert OrderNames(b)[k] == n;
  }
}
