/**
 * `find_matching_files` and the message schedules built from a reply's Messages:
 * one entry per matching file, rule by rule, each with the rule's delay and repeat and a
 * sent count of zero.
 */
module SimSchedule {
  import opened Wrappers
  import opened Text
  import StringOrder
  import opened SimConfig

  /** `re.match(pattern, filename)`; the regular-expression engine itself is not modelled. */
  type Matcher = (string, string) -> bool

  /**
   * The part of the file system the simulator looks at: the base directory, what
   * `os.listdir(base)` returns (None when it raises OSError), and the paths `os.path.isfile` accepts.
   */
  datatype Directory = Directory(base: string, listing: Option<seq<string>>, regularFiles: set<string>)

  /** `os.path.join(base, name)` for one name. */
  function Join(base: string, name: string): string
  {
    if |name| > 0 && name[0] == '/' then name
    else if base == [] || base[|base| - 1] == '/' then base + name
    else base + "/" + name
  }

  /** Whether `name` from the listing is kept: it matches the pattern and names a regular file. */
  predicate Keeps(dir: Directory, matches: Matcher, pattern: string, name: string)
  {
    matches(pattern, name) && Join(dir.base, name) in dir.regularFiles
  }

  /** The kept paths of `names`, in listing order. */
  function Candidates(dir: Directory, matches: Matcher, pattern: string, names: seq<string>): seq<string>
    decreases |names|
  {
    if names == [] then []
    else
      var last := names[|names| - 1];
      Candidates(dir, matches, pattern, names[..|names| - 1])
      + (if Keeps(dir, matches, pattern, last) then [Join(dir.base, last)] else [])
  }

  lemma {:induction false} CandidatesMembers(dir: Directory, matches: Matcher, pattern: string, names: seq<string>, p: string)
    ensures p in Candidates(dir, matches, pattern, names)
      <==> exists k :: 0 <= k < |names| && Keeps(dir, matches, pattern, names[k]) && Join(dir.base, names[k]) == p
    decreases |names|
  {
    if names != [] {
      var front := names[..|names| - 1];
      CandidatesMembers(dir, matches, pattern, front, p);
      if p in Candidates(dir, matches, pattern, front) {
        var k :| 0 <= k < |front| && Keeps(dir, matches, pattern, front[k]) && Join(dir.base, front[k]) == p;
        assert names[k] == front[k];
      }
      if exists k :: 0 <= k < |names| && Keeps(dir, matches, pattern, names[k]) && Join(dir.base, names[k]) == p {
        var k :| 0 <= k < |names| && Keeps(dir, matches, pattern, names[k]) && Join(dir.base, names[k]) == p;
        if k < |front| {
          assert front[k] == names[k];
        }
      }
    }
  }

  /** What `find_matching_files(pattern, base)` returns. */
  function MatchingFiles(dir: Directory, matches: Matcher, pattern: string): (r: seq<string>)
    ensures StringOrder.Sorted(r)
  {
    match dir.listing
    case None => []
    case Some(names) => StringOrder.Sort(Candidates(dir, matches, pattern, names))
  }

  /**
   * The result is sorted and holds exactly the joined paths of the listed names that match and are
   * regular files; an unreadable directory yields nothing.
   */
  lemma MatchingFilesMembers(dir: Directory, matches: Matcher, pattern: string, p: string)
    ensures dir.listing.None? ==> MatchingFiles(dir, matches, pattern) == []
    ensures dir.listing.Some? ==>
      (p in MatchingFiles(dir, matches, pattern)
       <==> exists k :: 0 <= k < |dir.listing.value| && Keeps(dir, matches, pattern, dir.listing.value[k])
                        && Join(dir.base, dir.listing.value[k]) == p)
  {
    if dir.listing.Some? {
      var names := dir.listing.value;
      StringOrder.SortMembers(Candidates(dir, matches, pattern, names), p);
      CandidatesMembers(dir, matches, pattern, names, p);
    }
  }

  /** `find_matching_files`: the listing loop followed by `sorted`. */
  method FindMatchingFiles(dir: Directory, matches: Matcher, pattern: string) returns (files: seq<string>)
    ensures files == MatchingFiles(dir, matches, pattern)
  {
    match dir.listing
    case None =>
      files := [];
    case Some(names) =>
      files := [];
      for i := 0 to |names|
        invariant files == Candidates(dir, matches, pattern, names[..i])
      {
        assert names[..i + 1][..i] == names[..i];
        var fullPath := Join(dir.base, names[i]);
        if matches(pattern, names[i]) && fullPath in dir.regularFiles {
          files := files + [fullPath];
        }
      }
      assert names[..|names|] == names;
      files := StringOrder.Sort(files);
  }

  /** A schedule entry: `{'file_path', 'delay', 'repeat', 'sent_count'}`. */
  datatype Entry = Entry(path: string, delay: int, repeat: int, sentCount: int)

  /** The entries one rule contributes for the given (sorted) files. */
  function EntriesFor(rule: MessageRule, files: seq<string>): (es: seq<Entry>)
    ensures |es| == |files|
  {
    seq(|files|, j requires 0 <= j < |files| => Entry(files[j], rule.delay, rule.repeat, 0))
  }

  /** The entries one rule contributes: one per matching file, in sorted order. */
  function RuleEntries(dir: Directory, matches: Matcher, rule: MessageRule): seq<Entry>
  {
    EntriesFor(rule, MatchingFiles(dir, matches, rule.pattern))
  }

  /** The blocks `block(r)` of the rules `rules`, one after another. */
  function ConcatMap(rules: seq<MessageRule>, block: MessageRule -> seq<Entry>): seq<Entry>
    decreases |rules|
  {
    if rules == [] then []
    else ConcatMap(rules[..|rules| - 1], block) + block(rules[|rules| - 1])
  }

  /** The schedule of a list of message rules, rule by rule. */
  function Expand(rules: seq<MessageRule>, dir: Directory, matches: Matcher): seq<Entry>
  {
    ConcatMap(rules, rule => RuleEntries(dir, matches, rule))
  }

  /** `create_message_schedule_for_reply`: the nested loops over rules and their matching files. */
  method CreateMessageScheduleForReply(reply: Reply, dir: Directory, matches: Matcher) returns (schedule: seq<Entry>)
    ensures schedule == Expand(reply.messages, dir, matches)
  {
    var rules := reply.messages;
    schedule := [];
    for k := 0 to |rules|
      invariant schedule == Expand(rules[..k], dir, matches)
    {
      var rule := rules[k];
      var files := FindMatchingFiles(dir, matches, rule.pattern);
      ghost var before := schedule;
      for j := 0 to |files|
        invariant schedule == before + EntriesFor(rule, files[..j])
      {
        EntriesForSnoc(rule, files, j);
        schedule := schedule + [Entry(files[j], rule.delay, rule.repeat, 0)];
      }
      assert files[..|files|] == files;
      ExpandSnoc(rules, k, dir, matches);
    }
    assert rules[..|rules|] == rules;
  }

  lemma EntriesForSnoc(rule: MessageRule, files: seq<string>, j: nat)
    requires j < |files|
    ensures EntriesFor(rule, files[..j + 1]) == EntriesFor(rule, files[..j]) + [Entry(files[j], rule.delay, rule.repeat, 0)]
  {
  }

  lemma ExpandSnoc(rules: seq<MessageRule>, k: nat, dir: Directory, matches: Matcher)
    requires k < |rules|
    ensures Expand(rules[..k + 1], dir, matches)
      == Expand(rules[..k], dir, matches) + EntriesFor(rules[k], MatchingFiles(dir, matches, rules[k].pattern))
  {
    assert rules[..k + 1][..k] == rules[..k];
    assert rules[..k + 1][k] == rules[k];
  }

  lemma {:induction false} ConcatMapAppend(a: seq<MessageRule>, b: seq<MessageRule>, block: MessageRule -> seq<Entry>)
    ensures ConcatMap(a + b, block) == ConcatMap(a, block) + ConcatMap(b, block)
    decreases |b|
  {
    if b == [] {
      assert a + b == a;
    } else {
      var front := b[..|b| - 1];
      ConcatMapAppend(a, front, block);
      assert (a + b)[..|a + b| - 1] == a + front;
      assert (a + b)[|a + b| - 1] == b[|b| - 1];
    }
  }

  /** The schedule of concatenated rule lists is the concatenation of their schedules. */
  lemma ExpandAppend(a: seq<MessageRule>, b: seq<MessageRule>, dir: Directory, matches: Matcher)
    ensures Expand(a + b, dir, matches) == Expand(a, dir, matches) + Expand(b, dir, matches)
  {
    ConcatMapAppend(a, b, rule => RuleEntries(dir, matches, rule));
  }

  /** The sum over the rules of how many files each one matches. */
  function MatchTotal(rules: seq<MessageRule>, dir: Directory, matches: Matcher): nat
    decreases |rules|
  {
    if rules == [] then 0
    else
      MatchTotal(rules[..|rules| - 1], dir, matches) + |MatchingFiles(dir, matches, rules[|rules| - 1].pattern)|
  }

  /**
   * Every scheduled entry starts unsent and carries the delay and repeat of a rule that matched
   * its path; there is one entry per (rule, matching file) pair.
   */
  lemma {:induction false} ExpandEntries(rules: seq<MessageRule>, dir: Directory, matches: Matcher)
    ensures |Expand(rules, dir, matches)| == MatchTotal(rules, dir, matches)
    ensures forall e :: e in Expand(rules, dir, matches) ==>
      e.sentCount == 0
      && exists r :: r in rules && r.delay == e.delay && r.repeat == e.repeat && e.path in MatchingFiles(dir, matches, r.pattern)
    decreases |rules|
  {
    if rules != [] {
      var front := rules[..|rules| - 1];
      var last := rules[|rules| - 1];
      ExpandEntries(front, dir, matches);
      forall e | e in Expand(rules, dir, matches)
        ensures e.sentCount == 0
        ensures exists r :: r in rules && r.delay == e.delay && r.repeat == e.repeat && e.path in MatchingFiles(dir, matches, r.pattern)
      {
        if e in Expand(front, dir, matches) {
          var r :| r in front && r.delay == e.delay && r.repeat == e.repeat && e.path in MatchingFiles(dir, matches, r.pattern);
          assert r in rules;
        } else {
          var files := MatchingFiles(dir, matches, last.pattern);
          var j :| 0 <= j < |files| && EntriesFor(last, files)[j] == e;
          assert last in rules;
        }
      }
    }
  }

  /** `create_message_schedule`: the schedule of the first reply, or nothing when there are no replies. */
  function CreateMessageSchedule(config: Config, dir: Directory, matches: Matcher): (r: seq<Entry>)
    ensures config.replies == [] ==> r == []
    ensures config.replies != [] ==> |r| == MatchTotal(config.replies[0].messages, dir, matches)
  {
    if |config.replies| > 0 then
      ExpandEntries(config.replies[0].messages, dir, matches);
      Expand(config.replies[0].messages, dir, matches)
    else []
  }
}
