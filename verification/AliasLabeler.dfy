/**
 Keeping aggregated source labels distinct (the aliasLabeler of
 internal/hubctl/subscriptions.go): an alias already taken gets the first free number.
 */
module AliasLabeler {
  import opened Text

  /** The alias a blank one is replaced by. */
  const FALLBACK: string := "node"

  function Numbered(alias: string, n: nat): string {
    alias + "-" + Decimal(n)
  }

  /** Trimming and lowering a numbered alias leaves its number alone. */
  lemma NumberedKey(alias: string, n: nat)
    requires Key(alias) != ""
    ensures Key(Numbered(alias, n)) == Lower(TrimLeft(alias) + "-" + Decimal(n))
  {
    hide TrimLeft, TrimRight, Lower, Decimal;
    var tail := "-" + Decimal(n);
    KeyMeansText(alias);
    TrimLeftAppend(alias, tail);
    EndsInDigit(TrimLeft(alias), n);
    Regroup(alias, n);
    Regroup(TrimLeft(alias), n);
    assert Trim(alias + tail) == TrimLeft(alias) + tail;
  }

  lemma Regroup(head: string, n: nat)
    ensures head + ("-" + Decimal(n)) == Numbered(head, n)
  {
    hide Decimal;
  }

  lemma KeyMeansText(alias: string)
    requires Key(alias) != ""
    ensures TrimLeft(alias) != ""
  {
  }

  lemma EndsInDigit(head: string, n: nat)
    ensures TrimRight(head + ("-" + Decimal(n))) == head + ("-" + Decimal(n))
  {
    var all := head + ("-" + Decimal(n));
    assert all[|all| - 1] == Decimal(n)[|Decimal(n)| - 1];
    hide Decimal;
    assert !IsSpace(all[|all| - 1]);
  }

  lemma {:induction false} TrimLeftAppend(a: string, b: string)
    requires TrimLeft(a) != ""
    ensures TrimLeft(a + b) == TrimLeft(a) + b
  {
    var all := a + b;
    assert all[0] == a[0];
    if IsSpace(a[0]) {
      assert all[1..] == a[1..] + b;
      TrimLeftAppend(a[1..], b);
      assert TrimLeft(all) == TrimLeft(all[1..]);
    } else {
      assert TrimLeft(all) == all && TrimLeft(a) == a;
    }
  }

  lemma LowerDigits(s: string)
    requires forall i :: 0 <= i < |s| ==> '0' <= s[i] <= '9'
    ensures Lower(s) == s
  {
  }

  lemma LowerAppend(a: string, b: string)
    ensures Lower(a + b) == Lower(a) + Lower(b)
  {
  }

  /** Different numbers never share a key. */
  lemma NumbersDiffer(alias: string, m: nat, n: nat)
    requires Key(alias) != "" && Key(Numbered(alias, m)) == Key(Numbered(alias, n))
    ensures m == n
  {
    NumberedKey(alias, m);
    NumberedKey(alias, n);
    var head := TrimLeft(alias) + "-";
    LowerAppend(head, Decimal(m));
    LowerAppend(head, Decimal(n));
    LowerDigits(Decimal(m));
    LowerDigits(Decimal(n));
    hide Lower;
    assert Decimal(m) == (Lower(head) + Decimal(m))[|Lower(head)|..];
    assert Decimal(n) == (Lower(head) + Decimal(n))[|Lower(head)|..];
    DecimalInjective(m, n);
  }

  /** The keys of the numbers from 2 up to, not including, n. */
  ghost function Tried(alias: string, n: nat): set<string> {
    set k: nat | 2 <= k < n :: Key(Numbered(alias, k))
  }

  lemma NextIsNew(alias: string, n: nat)
    requires Key(alias) != "" && n >= 2
    ensures Key(Numbered(alias, n)) !in Tried(alias, n)
    ensures Tried(alias, n + 1) == Tried(alias, n) + {Key(Numbered(alias, n))}
  {
    forall k: nat | 2 <= k < n ensures Key(Numbered(alias, k)) != Key(Numbered(alias, n)) {
      if Key(Numbered(alias, k)) == Key(Numbered(alias, n)) { NumbersDiffer(alias, k, n); }
    }
    hide Key, Numbered;
  }

  lemma {:induction false} TriedCount(alias: string, n: nat)
    requires Key(alias) != "" && n >= 2
    ensures |Tried(alias, n)| == n - 2
  {
    hide Key, Numbered;
    if n == 2 {
      assert Tried(alias, 2) == {};
    } else {
      TriedCount(alias, n - 1);
      NextIsNew(alias, n - 1);
      hide Tried;
      var smaller, next := Tried(alias, n - 1), Key(Numbered(alias, n - 1));
      assert |smaller + {next}| == |smaller| + 1;
    }
  }

  /** A set too small to hold them all cannot contain every number's key. */
  lemma Pigeonhole(alias: string, n: nat, taken: set<string>)
    requires Key(alias) != "" && n >= 2 && Tried(alias, n) <= taken
    ensures n - 2 <= |taken|
  {
    TriedCount(alias, n);
    assert taken == Tried(alias, n) + (taken - Tried(alias, n));
  }

  class Labeler {
    var taken: set<string>

    /** newAliasLabeler: blank reserved names reserve nothing. */
    constructor (reserved: seq<string>)
      ensures forall k :: k in taken <==> k != "" && exists i :: 0 <= i < |reserved| && Key(reserved[i]) == k
    {
      taken := set i | 0 <= i < |reserved| && Key(reserved[i]) != "" :: Key(reserved[i]);
    }

    /**
     distinct: terminates because the taken set is finite and no two numbers share a
     key. The label's key was free and is taken now; a free alias is returned as it is,
     and a taken one gets the least free number from 2.
     */
    method Distinct(alias: string) returns (chosen: string)
      modifies this
      ensures Key(chosen) != "" && Key(chosen) !in old(taken) && taken == old(taken) + {Key(chosen)}
      ensures var wanted := if Key(alias) == "" then FALLBACK else alias;
        if Key(wanted) !in old(taken) then chosen == wanted
        else exists n: nat :: 2 <= n && chosen == Numbered(wanted, n) && Tried(wanted, n) <= old(taken)
    {
      var wanted, key := alias, Key(alias);
      if key == "" {
        wanted, key := FALLBACK, Key(FALLBACK);
        FallbackKey();
      }
      hide Key;
      if key !in taken {
        taken := taken + {key};
        return wanted;
      }
      var n: nat := 2;
      while true
        invariant n >= 2 && Tried(wanted, n) <= taken && taken == old(taken)
        decreases |taken| + 2 - n
      {
        Pigeonhole(wanted, n, taken);
        var candidate := Numbered(wanted, n);
        if Key(candidate) !in taken {
          NumberedNotBlank(wanted, n);
          taken := taken + {Key(candidate)};
          return candidate;
        }
        n := n + 1;
        assert Tried(wanted, n) == Tried(wanted, n - 1) + {Key(candidate)};
        Pigeonhole(wanted, n, taken);
      }
    }

    /** A run of calls: all labels' keys differ from each other and from everything reserved before. */
    method DistinctAll(aliases: seq<string>) returns (labels: seq<string>)
      modifies this
      ensures |labels| == |aliases|
      ensures forall i :: 0 <= i < |labels| ==> Key(labels[i]) != "" && Key(labels[i]) !in old(taken)
      ensures forall i, j :: 0 <= i < j < |labels| ==> Key(labels[i]) != Key(labels[j])
    {
      hide Key;
      labels := [];
      for i := 0 to |aliases|
        invariant |labels| == i && old(taken) <= taken
        invariant forall k :: 0 <= k < i ==> Key(labels[k]) != "" && Key(labels[k]) in taken && Key(labels[k]) !in old(taken)
        invariant forall j, k :: 0 <= j < k < i ==> Key(labels[j]) != Key(labels[k])
      {
        var chosen := Distinct(aliases[i]);
        labels := labels + [chosen];
      }
    }
  }

  lemma FallbackKey()
    ensures Key(FALLBACK) != ""
  {
    hide Key;
    assert FALLBACK[0] == 'n' && FALLBACK[|FALLBACK| - 1] == 'e';
    KeyOfWord(FALLBACK);
  }

  lemma NumberedNotBlank(alias: string, n: nat)
    requires Key(alias) != ""
    ensures Key(Numbered(alias, n)) != ""
  {
    NumberedKey(alias, n);
  }
}
