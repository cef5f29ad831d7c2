/** The tag store and the wrapper that records what was added and removed. */
module Changelog {
  import opened Sorting

  /** Test kind, test and tag. */
  type Tagging = (string, string, string)

  type Conf = map<string, map<string, seq<string>>>

  /** Tags with the failure rate they were logged with, by test, by test kind. */
  type Log = map<string, map<string, map<string, real>>>

  ghost function Taggings(conf: Conf): set<Tagging> {
    set k, t, x | k in conf && t in conf[k] && x in conf[k][t] :: (k, t, x)
  }

  class TagsConfig {
    var conf: Conf
    const leq: (string, string) -> bool

    constructor (conf: Conf, leq: (string, string) -> bool)
      ensures this.conf == conf && this.leq == leq
    {
      this.conf, this.leq := conf, leq;
    }

    ghost function All(): set<Tagging>
      reads this
    {
      Taggings(conf)
    }

    function GetTags(kind: string, test: string): (tags: seq<string>)
      reads this
      ensures forall x :: x in tags <==> (kind, test, x) in All()
    {
      if kind in conf && test in conf[kind] then conf[kind][test] else []
    }

    method AddTag(kind: string, test: string, tag: string) returns (changed: bool)
      modifies this
      ensures changed <==> (kind, test, tag) !in old(All())
      ensures All() == old(All()) + {(kind, test, tag)}
      ensures changed && TotalPreorder(leq) ==> SortedBy(GetTags(kind, test), leq)
    {
      var tags := GetTags(kind, test);
      changed := tag !in tags;
      if changed {
        AddSorted(tags, tag, leq);
        tags := Sort(tags + [tag], leq);
      }
      StoreTags(kind, test, tag, tags);
    }

    method StoreTags(kind: string, test: string, tag: string, tags: seq<string>)
      requires forall x :: x in tags <==> x == tag || x in GetTags(kind, test)
      modifies this
      ensures GetTags(kind, test) == tags
      ensures All() == old(All()) + {(kind, test, tag)}
    {
      var patterns := if kind in conf then conf[kind] else map[];
      conf := conf[kind := patterns[test := tags]];
      assert forall k, t, x :: (k, t, x) in All() <==> (k, t, x) in old(All()) || (k, t, x) == (kind, test, tag);
    }

    method RemoveTag(kind: string, test: string, tag: string) returns (changed: bool)
      modifies this
      ensures changed <==> (kind, test, tag) in old(All())
      ensures All() == old(All()) - {(kind, test, tag)}
    {
      if kind !in conf || test !in conf[kind] || tag !in conf[kind][test] {
        return false;
      }
      var patterns := conf[kind];
      var tags := Without(patterns[test], tag);
      if tags == [] {
        patterns := patterns - {test};
      } else {
        patterns := patterns[test := tags];
      }
      conf := conf[kind := patterns];
      assert forall k, t, x :: (k, t, x) in All() <==> (k, t, x) in old(All()) && (k, t, x) != (kind, test, tag);
      return true;
    }
  }

  lemma AddSorted(tags: seq<string>, tag: string, leq: (string, string) -> bool)
    ensures forall x :: x in Sort(tags + [tag], leq) <==> x == tag || x in tags
    ensures TotalPreorder(leq) ==> SortedBy(Sort(tags + [tag], leq), leq)
  {
    SortMembers(tags + [tag], leq);
    if TotalPreorder(leq) { SortSorts(tags + [tag], leq); }
  }

  function Without(tags: seq<string>, tag: string): (r: seq<string>)
    ensures forall x :: x in r <==> x in tags && x != tag
  {
    if tags == [] then []
    else if tags[0] == tag then Without(tags[1..], tag)
    else [tags[0]] + Without(tags[1..], tag)
  }

  // ----- Changelog dictionaries

  predicate InLog(log: Log, kind: string, test: string, tag: string) {
    kind in log && test in log[kind] && tag in log[kind][test]
  }

  ghost predicate NoEmptyInner(log: Log) {
    && (forall k | k in log :: log[k] != map[])
    && (forall k, t | k in log && t in log[k] :: log[k][t] != map[])
  }

  /** `log.setdefault(kind, {}).setdefault(test, {})[tag] = rate` */
  function LogTag(log: Log, kind: string, test: string, tag: string, rate: real): Log {
    var kindDict := if kind in log then log[kind] else map[];
    var testDict := if test in kindDict then kindDict[test] else map[];
    log[kind := kindDict[test := testDict[tag := rate]]]
  }

  lemma LogTagAdds(log: Log, kind: string, test: string, tag: string, rate: real)
    ensures var r := LogTag(log, kind, test, tag, rate);
            forall k, t, x :: InLog(r, k, t, x) <==> InLog(log, k, t, x) || (k, t, x) == (kind, test, tag)
  {}

  lemma LogTagNoEmpty(log: Log, kind: string, test: string, tag: string, rate: real)
    requires NoEmptyInner(log)
    ensures NoEmptyInner(LogTag(log, kind, test, tag, rate))
  {
    var r := LogTag(log, kind, test, tag, rate);
    assert test in r[kind] && tag in r[kind][test];
  }

  /** `_cancel_tag_log`: deletes the tag and every dictionary left empty by that. */
  function CancelTagLog(log: Log, kind: string, test: string, tag: string): Log
    requires InLog(log, kind, test, tag)
  {
    var testDict := log[kind][test] - {tag};
    if testDict != map[] then log[kind := log[kind][test := testDict]]
    else
      var kindDict := log[kind] - {test};
      if kindDict != map[] then log[kind := kindDict] else log - {kind}
  }

  lemma CancelTagLogRemoves(log: Log, kind: string, test: string, tag: string)
    requires InLog(log, kind, test, tag)
    ensures var r := CancelTagLog(log, kind, test, tag);
            forall k, t, x :: InLog(r, k, t, x) <==> InLog(log, k, t, x) && (k, t, x) != (kind, test, tag)
  {
    var r := CancelTagLog(log, kind, test, tag);
    var testDict, kindDict := log[kind][test] - {tag}, log[kind] - {test};
    forall k, t, x
      ensures InLog(r, k, t, x) <==> InLog(log, k, t, x) && (k, t, x) != (kind, test, tag)
    {
      assert x in testDict <==> x in log[kind][test] && x != tag;
      assert t in kindDict <==> t in log[kind] && t != test;
    }
  }

  lemma CancelTagLogNoEmpty(log: Log, kind: string, test: string, tag: string)
    requires InLog(log, kind, test, tag) && NoEmptyInner(log)
    ensures NoEmptyInner(CancelTagLog(log, kind, test, tag))
  {}

  class TagsConfigWithChangelog {
    const lifecycle: TagsConfig
    var added: Log
    var removed: Log
    ghost const initial: set<Tagging>

    constructor (lifecycle: TagsConfig)
      ensures this.lifecycle == lifecycle && initial == lifecycle.All()
      ensures Valid() && added == map[] && removed == map[]
    {
      this.lifecycle := lifecycle;
      added, removed := map[], map[];
      initial := lifecycle.All();
    }

    /** The log holds exactly the taggings of `now` that are not in `before`. */
    static ghost predicate Difference(log: Log, now: set<Tagging>, before: set<Tagging>) {
      && (forall k, t, x :: InLog(log, k, t, x) <==> (k, t, x) in now && (k, t, x) !in before)
      && NoEmptyInner(log)
    }

    /** The changelog is the difference between the initial and the current tags. */
    ghost predicate Valid()
      reads this, lifecycle
    {
      Difference(added, lifecycle.All(), initial) && Difference(removed, initial, lifecycle.All())
    }

    method AddTag(kind: string, test: string, tag: string, rate: real)
      requires Valid()
      modifies this, lifecycle
      ensures Valid() && lifecycle.All() == old(lifecycle.All()) + {(kind, test, tag)}
    {
      var changed := lifecycle.AddTag(kind, test, tag);
      if changed {
        if InLog(removed, kind, test, tag) {
          CancelTagLogRemoves(removed, kind, test, tag);
          CancelTagLogNoEmpty(removed, kind, test, tag);
          removed := CancelTagLog(removed, kind, test, tag);
        } else {
          LogTagAdds(added, kind, test, tag, rate);
          LogTagNoEmpty(added, kind, test, tag, rate);
          added := LogTag(added, kind, test, tag, rate);
        }
      }
    }

    method RemoveTag(kind: string, test: string, tag: string, rate: real)
      requires Valid()
      modifies this, lifecycle
      ensures Valid() && lifecycle.All() == old(lifecycle.All()) - {(kind, test, tag)}
    {
      var changed := lifecycle.RemoveTag(kind, test, tag);
      if changed {
        if InLog(added, kind, test, tag) {
          CancelTagLogRemoves(added, kind, test, tag);
          CancelTagLogNoEmpty(added, kind, test, tag);
          added := CancelTagLog(added, kind, test, tag);
        } else {
          LogTagAdds(removed, kind, test, tag, rate);
          LogTagNoEmpty(removed, kind, test, tag, rate);
          removed := LogTag(removed, kind, test, tag, rate);
        }
      }
    }
  }

  // ----- Any sequence of calls

  datatype Call = Add(tagging: Tagging, rate: real) | Remove(tagging: Tagging, rate: real)

  function Applied(tags: set<Tagging>, calls: seq<Call>): set<Tagging>
    decreases |calls|
  {
    if calls == [] then tags
    else Applied(if calls[0].Add? then tags + {calls[0].tagging} else tags - {calls[0].tagging}, calls[1..])
  }

  /** Whatever the calls, the changelog ends as exactly the net change of the tags. */
  method Replay(lifecycle: TagsConfig, calls: seq<Call>) returns (log: TagsConfigWithChangelog)
    modifies lifecycle
    ensures fresh(log) && log.lifecycle == lifecycle
    ensures lifecycle.All() == Applied(old(lifecycle.All()), calls)
    ensures TagsConfigWithChangelog.Difference(log.added, lifecycle.All(), old(lifecycle.All()))
    ensures TagsConfigWithChangelog.Difference(log.removed, old(lifecycle.All()), lifecycle.All())
    ensures forall k, t, x :: !(InLog(log.added, k, t, x) && InLog(log.removed, k, t, x))
  {
    log := new TagsConfigWithChangelog(lifecycle);
    for i := 0 to |calls|
      invariant log.Valid() && log.initial == old(lifecycle.All())
      invariant Applied(log.initial, calls) == Applied(lifecycle.All(), calls[i..])
    {
      assert calls[i..][0] == calls[i] && calls[i..][1..] == calls[i + 1..];
      var (kind, test, tag) := calls[i].tagging;
      if calls[i].Add? {
        log.AddTag(kind, test, tag, calls[i].rate);
      } else {
        log.RemoveTag(kind, test, tag, calls[i].rate);
      }
    }
  }
}
