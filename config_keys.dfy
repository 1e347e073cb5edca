/**
  The required-key check that every IMS plugin performs on its configuration:
  walk the plugin's ordered list of required keys and collect, in that order,
  each key whose value the plugin's emptiness rule calls missing.
 */
module ConfigKeys {
  import opened Wrappers
  import opened JsValues
  import Text

  /** Falsy: `!configData[key]` (two plugins); Nullish: `=== undefined || === null` (the CLI plugin). */
  datatype Rule = FalsyIsMissing | NullishIsMissing

  predicate IsMissing(rule: Rule, v: JsValue)
  {
    match rule
    case FalsyIsMissing => !Truthy(v)
    case NullishIsMissing => v.Undefined? || v.Null?
  }

  /** The keys of required whose values in config are missing, in the order of required. */
  function MissingOf(required: seq<string>, config: JsValue, rule: Rule): (m: seq<string>)
    ensures |m| <= |required|
    ensures forall k :: k in m ==> k in required && IsMissing(rule, Get(config, k))
  {
    if required == [] then []
    else
      var init, key := required[..|required| - 1], required[|required| - 1];
      assert required == init + [key];
      MissingOf(init, config, rule) + (if IsMissing(rule, Get(config, key)) then [key] else [])
  }

  predicate NoDuplicates(s: seq<string>)
  {
    forall i, j :: 0 <= i < j < |s| ==> s[i] != s[j]
  }

  /** Position of x in s (|s| when absent). */
  function PositionIn(s: seq<string>, x: string): (p: nat)
    ensures p <= |s|
    ensures p < |s| ==> s[p] == x
    ensures p == |s| <==> x !in s
  {
    if s == [] then 0 else if s[0] == x then 0 else 1 + PositionIn(s[1..], x)
  }

  /** The requiredKeys.forEach(... missingKeys.push(key)) loop. */
  method CollectMissing(required: seq<string>, config: JsValue, rule: Rule) returns (missing: seq<string>)
    ensures missing == MissingOf(required, config, rule)
    ensures forall k :: k in missing <==> k in required && IsMissing(rule, Get(config, k))
  {
    missing := [];
    var i := 0;
    while i < |required|
      invariant 0 <= i <= |required|
      invariant missing == MissingOf(required[..i], config, rule)
    {
      assert required[..i + 1][..i] == required[..i];
      if IsMissing(rule, Get(config, required[i])) {
        missing := missing + [required[i]];
      }
      i := i + 1;
    }
    assert required[..|required|] == required;
    MissingOfMembers(required, config, rule);
  }

  /** A key is reported exactly when it is required and missing. */
  lemma {:induction false} MissingOfMembers(required: seq<string>, config: JsValue, rule: Rule)
    ensures forall k :: k in MissingOf(required, config, rule) <==> k in required && IsMissing(rule, Get(config, k))
  {
    if required != [] {
      var init, key := required[..|required| - 1], required[|required| - 1];
      MissingOfMembers(init, config, rule);
      assert required == init + [key];
    }
  }

  /** Nothing is reported exactly when no required key is missing. */
  lemma MissingOfEmpty(required: seq<string>, config: JsValue, rule: Rule)
    ensures MissingOf(required, config, rule) == [] <==> forall k :: k in required ==> !IsMissing(rule, Get(config, k))
  {
    MissingOfMembers(required, config, rule);
    var m := MissingOf(required, config, rule);
    if m != [] {
      assert m[0] in m;
    }
  }

  /** A one-key list reports that key exactly when it is missing. */
  lemma MissingOfSingle(key: string, config: JsValue, rule: Rule)
    ensures MissingOf([key], config, rule) == if IsMissing(rule, Get(config, key)) then [key] else []
  {
    assert [key][..0] == [];
  }

  /** When every required key is missing, the whole required list is reported. */
  lemma {:induction false} MissingOfAll(required: seq<string>, config: JsValue, rule: Rule)
    requires forall k :: k in required ==> IsMissing(rule, Get(config, k))
    ensures MissingOf(required, config, rule) == required
  {
    if required != [] {
      var init, key := required[..|required| - 1], required[|required| - 1];
      assert required == init + [key];
      forall k | k in init ensures IsMissing(rule, Get(config, k)) {
        assert k in required;
      }
      MissingOfAll(init, config, rule);
      assert IsMissing(rule, Get(config, key)) by {
        assert key in required;
      }
    }
  }

  /** The positions in required of the keys of m increase along m. */
  predicate InRequiredOrder(required: seq<string>, m: seq<string>)
  {
    forall i, j :: 0 <= i < j < |m| ==> PositionIn(required, m[i]) < PositionIn(required, m[j])
  }

  /**
    The report is a subsequence of the required list: never longer, and its keys
    appear in the declared order, hence without duplicates.
   */
  lemma MissingOfOrdered(required: seq<string>, config: JsValue, rule: Rule)
    requires NoDuplicates(required)
    ensures |MissingOf(required, config, rule)| <= |required|
    ensures var m := MissingOf(required, config, rule);
            forall i, j :: 0 <= i < j < |m| ==> PositionIn(required, m[i]) < PositionIn(required, m[j])
    ensures NoDuplicates(MissingOf(required, config, rule))
  {
    MissingOfInOrder(required, config, rule);
    OrderedHasNoDuplicates(required, MissingOf(required, config, rule));
  }

  lemma {:induction false} MissingOfInOrder(required: seq<string>, config: JsValue, rule: Rule)
    requires NoDuplicates(required)
    ensures InRequiredOrder(required, MissingOf(required, config, rule))
  {
    if required != [] {
      var init, key := required[..|required| - 1], required[|required| - 1];
      assert required == init + [key];
      assert NoDuplicates(init);
      MissingOfInOrder(init, config, rule);
      MissingOfMembers(init, config, rule);
      var mi := MissingOf(init, config, rule);
      var extra := if IsMissing(rule, Get(config, key)) then [key] else [];
      assert MissingOf(required, config, rule) == mi + extra;
      OrderExtends(init, key, mi, extra);
    }
  }

  /** Appending the last required key to an ordered report of the earlier keys keeps it ordered. */
  lemma OrderExtends(init: seq<string>, key: string, mi: seq<string>, extra: seq<string>)
    requires NoDuplicates(init + [key])
    requires InRequiredOrder(init, mi)
    requires forall x :: x in mi ==> x in init
    requires extra == [] || extra == [key]
    ensures InRequiredOrder(init + [key], mi + extra)
  {
    var required, m := init + [key], mi + extra;
    forall i | 0 <= i < |init| ensures init[i] != key {
      assert required[i] == init[i] && required[|init|] == key;
    }
    forall x | x in init ensures PositionIn(required, x) == PositionIn(init, x) {
      PositionInPrefix(init, key, x);
    }
    PositionInPrefix(init, key, key);
    forall i, j | 0 <= i < j < |m| ensures PositionIn(required, m[i]) < PositionIn(required, m[j]) {
      assert m[i] == mi[i] && m[i] in init;
      if j < |mi| {
        assert m[j] == mi[j] && m[j] in init;
      } else {
        assert m[j] == key;
      }
    }
  }

  /** A report in strictly increasing position order repeats no key. */
  lemma OrderedHasNoDuplicates(required: seq<string>, m: seq<string>)
    requires InRequiredOrder(required, m)
    ensures NoDuplicates(m)
  {
    forall i, j | 0 <= i < j < |m| ensures m[i] != m[j] {
      assert PositionIn(required, m[i]) < PositionIn(required, m[j]);
    }
  }

  lemma {:induction false} PositionInPrefix(init: seq<string>, key: string, x: string)
    requires x in init || x == key
    ensures PositionIn(init + [key], x) == if x in init then PositionIn(init, x) else |init|
  {
    if init != [] {
      assert (init + [key])[1..] == init[1..] + [key];
      if init[0] != x {
        PositionInPrefix(init[1..], key, x);
      }
    }
  }

  /**
    What the two plugins returning `false` for an absent configuration give
    back: `false`, or the array of missing keys.
   */
  datatype KeysOrFalse = NoConfig | Keys(keys: seq<string>)

  /** `.length` of the result: undefined for `false`. */
  function LengthOf(r: KeysOrFalse): Option<nat>
  {
    match r
    case NoConfig => None
    case Keys(ks) => Some(|ks|)
  }

  /** `${missingKeys}`: "false", or the keys joined by ','. */
  function KeysText(r: KeysOrFalse): string
  {
    match r
    case NoConfig => "false"
    case Keys(ks) => Text.Join(ks, ',')
  }

  /**
    canSupport of the two plugins that reject with a plain Error: resolve with
    true when `missingKeys.length === 0`, otherwise reject with the message
    prefix followed by `${missingKeys}`.
   */
  function CanSupportWith(prefix: string, missing: KeysOrFalse): (r: Result<bool, string>)
    ensures r.Success? <==> missing == Keys([])
    ensures r.Success? ==> r.value
    ensures r.Failure? ==> r.error == prefix + KeysText(missing)
  {
    if LengthOf(missing) == Some(0) then Success(true) else Failure(prefix + KeysText(missing))
  }
}
