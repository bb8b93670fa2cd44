/** Pairing of Powerwall 2 modules: the controller lists, for every module, a
    thermal controller (THC) directly followed by its inverter (PINV). The loop
    recognises that layout in one pass and maps each package serial to the
    inverter of its module. */
module Pairing {
  import opened Common

  datatype Component = Component(partNumber: string, serial: string, signals: seq<string>)

  // ---------------------------------------------------------------- families

  /** The part of a signal name before its first underscore; a name that starts
      with an underscore or has none is its own prefix. */
  function Prefix(name: string): (p: string)
    ensures p <= name && (name != "" ==> p != "")
    ensures p != name ==> '_' !in p && name[|p|] == '_'
  {
    if name == "" || name[0] == '_' then name else UpToUnderscore(name)
  }

  function UpToUnderscore(name: string): (p: string)
    ensures p <= name && '_' !in p
    ensures p != name ==> name[|p|] == '_'
  {
    if name == "" || name[0] == '_' then "" else [name[0]] + UpToUnderscore(name[1..])
  }

  /** Where the first underscore is, or the length if there is none, decides. */
  lemma {:induction false} PrefixEndsAtFirstUnderscore(name: string, i: nat)
    requires i <= |name| && '_' !in name[..i] && (i < |name| ==> name[i] == '_')
    ensures Prefix(name) == if i > 0 then name[..i] else name
  {
    if i > 0 {
      assert name[0] in name[..i];
      UpToFirstUnderscore(name, i);
    }
  }

  lemma {:induction false} UpToFirstUnderscore(name: string, i: nat)
    requires i <= |name| && '_' !in name[..i] && (i < |name| ==> name[i] == '_')
    ensures UpToUnderscore(name) == name[..i]
  {
    if i > 0 {
      assert name[0] in name[..i] && name[1..][..i - 1] == name[..i][1..];
      UpToFirstUnderscore(name[1..], i - 1);
    }
  }

  /** A signal bears the name of the family, alone or before an underscore. */
  predicate NamedAfter(signal: string, f: string) { signal == f || f + "_" <= signal }

  lemma PrefixIsFamilyName(signal: string, f: string)
    requires f != "" && '_' !in f
    ensures Prefix(signal) == f <==> NamedAfter(signal, f)
  {
    if NamedAfter(signal, f) {
      assert signal[..|f|] == f;
      assert signal != f ==> signal[|f|] == (f + "_")[|f|];
      PrefixEndsAtFirstUnderscore(signal, |f|);
    }
  }

  /** `f` is the one family that all named signals belong to. */
  ghost predicate IsOnlyFamily(signals: seq<string>, f: string) {
    && (exists i :: 0 <= i < |signals| && signals[i] != "" && Prefix(signals[i]) == f)
    && (forall i :: 0 <= i < |signals| && signals[i] != "" ==> Prefix(signals[i]) == f)
  }

  ghost function Family(c: Component): (f: string)
    ensures f != "" ==> IsOnlyFamily(c.signals, f)
    ensures forall g :: IsOnlyFamily(c.signals, g) ==> g == f
  {
    if f :| IsOnlyFamily(c.signals, f) then f else ""
  }

  method MsaFamily(c: Component) returns (f: string)
    ensures f == Family(c)
  {
    var families: set<string> := {};
    for i := 0 to |c.signals|
      invariant forall g :: g in families <==> exists j :: 0 <= j < i && c.signals[j] != "" && Prefix(c.signals[j]) == g
    {
      if c.signals[i] != "" {
        families := families + {Prefix(c.signals[i])};
      }
    }
    forall g | IsOnlyFamily(c.signals, g) ensures families == {g} {
    }
    if |families| == 1 {
      f :| f in families;
      SingletonSet(families, f);
      forall j | 0 <= j < |c.signals| && c.signals[j] != "" ensures Prefix(c.signals[j]) == f {
        assert Prefix(c.signals[j]) in families;
      }
      assert IsOnlyFamily(c.signals, f);
    } else {
      f := "";
    }
  }

  lemma SingletonSet<T>(s: set<T>, x: T)
    requires x in s && |s| == 1
    ensures s == {x}
  {
    assert |s - {x}| == 0;
  }

  // ----------------------------------------------------------------- grammar

  /** The component has a named signal, and all its named ones bear that name. */
  ghost predicate AllNamedAfter(c: Component, f: string) {
    && (exists i :: 0 <= i < |c.signals| && c.signals[i] != "")
    && (forall i :: 0 <= i < |c.signals| && c.signals[i] != "" ==> NamedAfter(c.signals[i], f))
  }

  ghost predicate IsThc(c: Component) { AllNamedAfter(c, "THC") }

  ghost predicate IsPinv(c: Component) { AllNamedAfter(c, "PINV") }

  /** The family computed is the one that the signal names show. */
  lemma FamilyIsByNames(c: Component, f: string)
    requires f != "" && '_' !in f
    ensures Family(c) == f <==> AllNamedAfter(c, f)
  {
    forall i | 0 <= i < |c.signals| ensures Prefix(c.signals[i]) == f <==> NamedAfter(c.signals[i], f) {
      PrefixIsFamilyName(c.signals[i], f);
    }
    if AllNamedAfter(c, f) {
      assert IsOnlyFamily(c.signals, f);
    }
  }

  ghost predicate InModule(c: Component) { IsThc(c) || IsPinv(c) }

  /** The components that carry a serial, in order. */
  function Serialled(msa: seq<Component>): (cs: seq<Component>)
  {
    if msa == [] then []
    else Serialled(msa[..|msa| - 1]) + if msa[|msa| - 1].serial != "" then [msa[|msa| - 1]] else []
  }

  /** Every THC is directly followed by a PINV and every PINV directly preceded
      by a THC, so the list splits into lone other components and pairs. */
  ghost predicate SplitsIntoPairs(cs: seq<Component>) {
    && (forall i :: 0 <= i < |cs| && IsThc(cs[i]) ==> i + 1 < |cs| && IsPinv(cs[i + 1]))
    && (forall i :: 0 <= i < |cs| && IsPinv(cs[i]) ==> 0 < i && IsThc(cs[i - 1]))
  }

  ghost predicate DistinctSerials(cs: seq<Component>) {
    forall i, j :: 0 <= i < j < |cs| && InModule(cs[i]) && InModule(cs[j]) ==> cs[i].serial != cs[j].serial
  }

  ghost function ThcSerials(cs: seq<Component>): set<string> {
    set i | 0 <= i < |cs| && IsThc(cs[i]) :: cs[i].serial
  }

  function Known(packageSerials: seq<string>): set<string> {
    set s | s in packageSerials && s != ""
  }

  /** The layout the recogniser is for. */
  ghost predicate WellPaired(msa: seq<Component>, packageSerials: seq<string>) {
    var cs := Serialled(msa);
    SplitsIntoPairs(cs) && DistinctSerials(cs) && ThcSerials(cs) == Known(packageSerials)
  }

  /** `pairs` maps the serial of each THC to the component right after it. */
  ghost predicate MapsToFollower(cs: seq<Component>, pairs: map<string, Component>) {
    && (forall i :: 0 <= i < |cs| - 1 && IsThc(cs[i]) ==> cs[i].serial in pairs && pairs[cs[i].serial] == cs[i + 1])
    && (forall s :: s in pairs ==> exists i :: 0 <= i < |cs| - 1 && IsThc(cs[i]) && cs[i].serial == s)
  }

  // --------------------------------------------------------------- the loop

  ghost predicate FollowsGrammar(cs: seq<Component>) {
    && (forall i :: 0 <= i < |cs| - 1 && IsThc(cs[i]) ==> IsPinv(cs[i + 1]))
    && (forall i :: 0 <= i < |cs| && IsPinv(cs[i]) ==> 0 < i && IsThc(cs[i - 1]))
  }

  ghost predicate EndsInThc(cs: seq<Component>) { cs != [] && IsThc(cs[|cs| - 1]) }

  ghost function SerialsInModules(cs: seq<Component>): set<string> {
    set i | 0 <= i < |cs| && InModule(cs[i]) :: cs[i].serial
  }

  /** What one pass over a prefix has established. Its last component may be a
      THC that still waits for its inverter. */
  ghost predicate Progress(cs: seq<Component>, known: set<string>, seen: set<string>,
                           pending: Option<string>, pairs: map<string, Component>) {
    && FollowsGrammar(cs)
    && pending == (if EndsInThc(cs) then Some(cs[|cs| - 1].serial) else None)
    && DistinctSerials(cs)
    && seen == SerialsInModules(cs)
    && ThcSerials(cs) <= known
    && MapsToFollower(cs, pairs)
  }

  /** The prefix already breaks the layout, whatever follows it. */
  ghost predicate Hopeless(cs: seq<Component>, known: set<string>) {
    !FollowsGrammar(cs) || !DistinctSerials(cs) || !(ThcSerials(cs) <= known)
  }

  lemma SerialsAfter(cs: seq<Component>, comp: Component)
    ensures SerialsInModules(cs + [comp]) == SerialsInModules(cs) + if InModule(comp) then {comp.serial} else {}
    ensures ThcSerials(cs + [comp]) == ThcSerials(cs) + if IsThc(comp) then {comp.serial} else {}
  {
    var next := cs + [comp];
    forall s | s in SerialsInModules(cs) ensures s in SerialsInModules(next) {
      var i :| 0 <= i < |cs| && InModule(cs[i]) && cs[i].serial == s;
      assert next[i] == cs[i];
    }
    forall s | s in ThcSerials(cs) ensures s in ThcSerials(next) {
      var i :| 0 <= i < |cs| && IsThc(cs[i]) && cs[i].serial == s;
      assert next[i] == cs[i];
    }
    assert next[|cs|] == comp;
  }

  lemma DistinctAfter(cs: seq<Component>, comp: Component)
    requires DistinctSerials(cs)
    ensures DistinctSerials(cs + [comp]) <==> (InModule(comp) ==> comp.serial !in SerialsInModules(cs))
  {
    var next := cs + [comp];
    if InModule(comp) && comp.serial in SerialsInModules(cs) {
      var i :| 0 <= i < |cs| && InModule(cs[i]) && cs[i].serial == comp.serial;
      assert next[i] == cs[i] && next[|cs|] == comp;
    } else {
      forall i, j | 0 <= i < j < |next| && InModule(next[i]) && InModule(next[j])
        ensures next[i].serial != next[j].serial
      {
        if j == |cs| {
          assert cs[i].serial in SerialsInModules(cs);
        }
      }
    }
  }

  lemma GrammarAfter(cs: seq<Component>, comp: Component)
    requires FollowsGrammar(cs)
    ensures FollowsGrammar(cs + [comp]) <==> (EndsInThc(cs) <==> IsPinv(comp))
    ensures EndsInThc(cs + [comp]) <==> IsThc(comp)
  {
    var next := cs + [comp];
    assert next[|cs|] == comp && forall i :: 0 <= i < |cs| ==> next[i] == cs[i];
    if cs != [] {
      assert next[|cs| - 1] == cs[|cs| - 1];
    }
  }

  /** The pairs after one more component: a waiting THC gets it as its follower. */
  ghost function PairsAfter(cs: seq<Component>, comp: Component, pairs: map<string, Component>)
    : (pairs': map<string, Component>)
  {
    if EndsInThc(cs) then pairs[cs[|cs| - 1].serial := comp] else pairs
  }

  lemma FollowerAfter(cs: seq<Component>, comp: Component, pairs: map<string, Component>)
    requires DistinctSerials(cs) && MapsToFollower(cs, pairs)
    ensures MapsToFollower(cs + [comp], PairsAfter(cs, comp, pairs))
  {
    var next, next' := cs + [comp], PairsAfter(cs, comp, pairs);
    forall i | 0 <= i < |next| - 1 && IsThc(next[i])
      ensures next[i].serial in next' && next'[next[i].serial] == next[i + 1]
    {
      EachThcIsMapped(cs, comp, pairs, i);
    }
    forall s | s in next' ensures exists i :: 0 <= i < |next| - 1 && IsThc(next[i]) && next[i].serial == s {
      if s in pairs {
        var i :| 0 <= i < |cs| - 1 && IsThc(cs[i]) && cs[i].serial == s;
        assert IsThc(next[i]) && next[i].serial == s;
      } else {
        assert IsThc(next[|cs| - 1]) && next[|cs| - 1].serial == s;
      }
    }
  }

  lemma EachThcIsMapped(cs: seq<Component>, comp: Component, pairs: map<string, Component>, i: nat)
    requires DistinctSerials(cs) && MapsToFollower(cs, pairs) && i < |cs| && IsThc(cs[i])
    ensures var pairs' := PairsAfter(cs, comp, pairs);
            cs[i].serial in pairs' && pairs'[cs[i].serial] == (cs + [comp])[i + 1]
  {
    if i < |cs| - 1 && EndsInThc(cs) {
      assert InModule(cs[i]) && InModule(cs[|cs| - 1]);
      assert cs[i].serial != cs[|cs| - 1].serial;
    }
  }

  method PairNextComponent(comp: Component, known: set<string>, seen: set<string>, pending: Option<string>,
                           pairs: map<string, Component>, ghost cs: seq<Component>)
    returns (seen': set<string>, pending': Option<string>, pairs': map<string, Component>, ok: bool)
    requires Progress(cs, known, seen, pending, pairs)
    ensures comp.serial == "" ==> ok && (seen', pending', pairs') == (seen, pending, pairs)
    ensures comp.serial != "" && ok ==> Progress(cs + [comp], known, seen', pending', pairs')
    ensures comp.serial != "" && !ok ==> Hopeless(cs + [comp], known)
  {
    seen', pending', pairs', ok := seen, pending, pairs, true;
    if comp.serial == "" {
      return;
    }
    var family := MsaFamily(comp);
    FamilyIsByNames(comp, "THC");
    FamilyIsByNames(comp, "PINV");
    GrammarAfter(cs, comp);
    DistinctAfter(cs, comp);
    SerialsAfter(cs, comp);
    FollowerAfter(cs, comp, pairs);
    if family == "THC" {
      if pending.Some? || comp.serial in seen || comp.serial !in known {
        ok := false;
        return;
      }
      seen', pending' := seen + {comp.serial}, Some(comp.serial);
    } else if family == "PINV" {
      if pending.None? || comp.serial in seen {
        ok := false;
        return;
      }
      seen', pending', pairs' := seen + {comp.serial}, None, pairs[pending.value := comp];
    } else {
      ok := pending.None?;
    }
  }

  lemma HopelessForever(cs: seq<Component>, known: set<string>, rest: seq<Component>)
    requires Hopeless(cs, known)
    ensures Hopeless(cs + rest, known)
  {
    var all := cs + rest;
    assert forall i :: 0 <= i < |cs| ==> all[i] == cs[i];
    if !(ThcSerials(cs) <= known) {
      var i :| 0 <= i < |cs| && IsThc(cs[i]) && cs[i].serial !in known;
      assert IsThc(all[i]) && all[i].serial in ThcSerials(all);
    }
  }

  lemma SerialledConcat(a: seq<Component>, b: seq<Component>)
    ensures Serialled(a + b) == Serialled(a) + Serialled(b)
  {
    if b == [] {
      assert a + b == a;
    } else {
      var rest := b[..|b| - 1];
      assert (a + b)[..|a + b| - 1] == a + rest;
      SerialledConcat(a, rest);
    }
  }

  lemma KeysAreThcSerials(cs: seq<Component>, pairs: map<string, Component>)
    requires !EndsInThc(cs) && MapsToFollower(cs, pairs)
    ensures pairs.Keys == ThcSerials(cs)
  {
    forall s | s in ThcSerials(cs) ensures s in pairs {
      var i :| 0 <= i < |cs| && IsThc(cs[i]) && cs[i].serial == s;
      assert i < |cs| - 1;
    }
    forall s | s in pairs ensures s in ThcSerials(cs) {
      KeyIsThcSerial(cs, pairs, s);
    }
  }

  lemma KeyIsThcSerial(cs: seq<Component>, pairs: map<string, Component>, s: string)
    requires MapsToFollower(cs, pairs) && s in pairs
    ensures s in ThcSerials(cs)
  {
    var i :| 0 <= i < |cs| - 1 && IsThc(cs[i]) && cs[i].serial == s;
    assert cs[i].serial in ThcSerials(cs);
  }

  /** With all THC serials known, there are as many pairs as known serials
      exactly when every known serial has its THC. */
  lemma CountDecides(cs: seq<Component>, known: set<string>, pairs: map<string, Component>)
    requires !EndsInThc(cs) && ThcSerials(cs) <= known && MapsToFollower(cs, pairs)
    ensures pairs.Keys == ThcSerials(cs)
    ensures |pairs| == |known| <==> ThcSerials(cs) == known
  {
    KeysAreThcSerials(cs, pairs);
    assert |pairs| == |pairs.Keys|;
    if |pairs.Keys| == |known| {
      SubsetOfSameSize(pairs.Keys, known);
    }
  }

  lemma SubsetOfSameSize<T>(a: set<T>, b: set<T>)
    requires a <= b && |a| == |b|
    ensures a == b
  {
    assert |b - a| == |b| - |a|;
  }

  ghost predicate DistinctInverters(pairs: map<string, Component>) {
    forall s, t :: s in pairs && t in pairs && s != t ==> pairs[s].serial != pairs[t].serial
  }

  lemma DistinctFollowers(cs: seq<Component>, pairs: map<string, Component>)
    requires FollowsGrammar(cs) && DistinctSerials(cs) && MapsToFollower(cs, pairs)
    ensures DistinctInverters(pairs)
  {
    forall s, t | s in pairs && t in pairs && s != t ensures pairs[s].serial != pairs[t].serial {
      var i :| 0 <= i < |cs| - 1 && IsThc(cs[i]) && cs[i].serial == s;
      var j :| 0 <= j < |cs| - 1 && IsThc(cs[j]) && cs[j].serial == t;
      assert InModule(cs[i + 1]) && InModule(cs[j + 1]) && i != j;
      assert i + 1 < j + 1 || j + 1 < i + 1;
    }
  }

  lemma HopelessPrefix(msa: seq<Component>, k: nat, packageSerials: seq<string>)
    requires k <= |msa| && Hopeless(Serialled(msa[..k]), Known(packageSerials))
    ensures !WellPaired(msa, packageSerials)
  {
    SerialledConcat(msa[..k], msa[k..]);
    assert msa[..k] + msa[k..] == msa;
    HopelessForever(Serialled(msa[..k]), Known(packageSerials), Serialled(msa[k..]));
    SplitIsGrammar(Serialled(msa));
  }

  lemma SplitIsGrammar(cs: seq<Component>)
    ensures SplitsIntoPairs(cs) <==> FollowsGrammar(cs) && !EndsInThc(cs)
  {
    if FollowsGrammar(cs) && !EndsInThc(cs) {
      forall i | 0 <= i < |cs| && IsThc(cs[i]) ensures i + 1 < |cs| && IsPinv(cs[i + 1]) {
        assert i != |cs| - 1;
      }
    }
  }

  /** What the state after the last component says about the whole list. */
  lemma Verdict(msa: seq<Component>, packageSerials: seq<string>, seen: set<string>,
                pending: Option<string>, pairs: map<string, Component>)
    requires Progress(Serialled(msa), Known(packageSerials), seen, pending, pairs)
    ensures WellPaired(msa, packageSerials) <==> pending.None? && |pairs| == |Known(packageSerials)|
    ensures WellPaired(msa, packageSerials) ==> pairs.Keys == Known(packageSerials) && DistinctInverters(pairs)
  {
    var cs := Serialled(msa);
    SplitIsGrammar(cs);
    DistinctFollowers(cs, pairs);
    if pending.None? {
      CountDecides(cs, Known(packageSerials), pairs);
    }
  }

  method KnownSerials(packageSerials: seq<string>) returns (known: set<string>)
    ensures known == Known(packageSerials)
  {
    known := {};
    for i := 0 to |packageSerials|
      invariant known == Known(packageSerials[..i])
    {
      assert packageSerials[..i + 1] == packageSerials[..i] + [packageSerials[i]];
      if packageSerials[i] != "" {
        known := known + {packageSerials[i]};
      }
    }
    assert packageSerials[..|packageSerials|] == packageSerials;
  }

  /** The recogniser is sound and complete: it answers exactly on well-paired
      lists, and the answer sends each package serial to the inverter that
      follows its THC, no two serials to the same inverter serial. */
  method Pw2MsaModulePairing(msa: seq<Component>, packageSerials: seq<string>)
    returns (r: Option<map<string, Component>>)
    ensures r.Some? <==> WellPaired(msa, packageSerials)
    ensures r.Some? ==> forall s :: s in r.value <==> s in packageSerials && s != ""
    ensures r.Some? ==> MapsToFollower(Serialled(msa), r.value)
    ensures r.Some? ==> DistinctInverters(r.value)
  {
    var known := KnownSerials(packageSerials);
    var pairs: map<string, Component> := map[];
    var seen: set<string> := {};
    var pending: Option<string> := None;
    for k := 0 to |msa|
      invariant Progress(Serialled(msa[..k]), known, seen, pending, pairs)
    {
      ghost var cs := Serialled(msa[..k]);
      assert msa[..k + 1][..k] == msa[..k];
      assert Serialled(msa[..k + 1]) == if msa[k].serial == "" then cs else cs + [msa[k]];
      var ok;
      seen, pending, pairs, ok := PairNextComponent(msa[k], known, seen, pending, pairs, cs);
      if !ok {
        HopelessPrefix(msa, k + 1, packageSerials);
        return None;
      }
    }
    assert msa[..|msa|] == msa;
    Verdict(msa, packageSerials, seen, pending, pairs);
    if pending.Some? || |pairs| != |known| {
      return None;
    }
    return Some(pairs);
  }
}
