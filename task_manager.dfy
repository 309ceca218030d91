/**
 * Task templates and the run history of droidrun-gui (droidrun_gui/task_manager.py). Templates
 * are grouped by category; the history keeps the 100 most recent runs. Reading and writing
 * templates.json and history.json is replaced by the values the manager starts from and holds,
 * and the clock by the timestamp an entry is given.
 */
module Tasks {
  import opened Wrappers

  datatype Template = Template(name: string, description: string)

  datatype HistoryEntry = HistoryEntry(
    timestamp: string, task: string, model: string, device: string,
    success: bool, message: string, steps: int)

  type Templates = map<string, seq<Template>>

  const HistoryLimit: nat := 100

  const DefaultCategory: string := "常用任务"

  /** The templates written out when there is no templates file. */
  function DefaultTemplates(): Templates {
    map[DefaultCategory := [
      Template("检查系统版本", "打开设置应用并检查Android版本"),
      Template("清理后台", "打开最近任务列表并清理所有后台应用"),
      Template("检查电池状态", "打开设置应用并检查电池状态")]]
  }

  /** Every category holds at least one template. */
  predicate NoEmptyCategory(templates: Templates) {
    forall c :: c in templates ==> templates[c] != []
  }

  /** The templates after `add_template`: appended to its category, which is created if missing. */
  function AddTo(templates: Templates, category: string, name: string, description: string): (r: Templates)
    ensures r.Keys == templates.Keys + {category}
    ensures forall c :: c in templates && c != category ==> r[c] == templates[c]
    ensures r[category] != [] && r[category][|r[category]| - 1] == Template(name, description)
    ensures category in templates ==> r[category][..|r[category]| - 1] == templates[category]
    ensures category !in templates ==> |r[category]| == 1
  {
    templates[category := (if category in templates then templates[category] else []) + [Template(name, description)]]
  }

  /** The templates of `ts` not named `name`, in order. */
  function Without(ts: seq<Template>, name: string): (r: seq<Template>)
    ensures forall k :: 0 <= k < |r| ==> r[k].name != name
    ensures forall t :: t in ts && t.name != name ==> t in r
    ensures forall t :: t in r ==> t in ts
    decreases |ts|
  {
    if ts == [] then []
    else
      var t := ts[|ts| - 1];
      Without(ts[..|ts| - 1], name) + (if t.name != name then [t] else [])
  }

  /** The templates after `remove_template`: the named ones leave the category, and an emptied category goes. */
  function RemoveFrom(templates: Templates, category: string, name: string): (r: Templates)
    ensures r.Keys <= templates.Keys
    ensures forall c :: c in templates && c != category ==> c in r && r[c] == templates[c]
    ensures category in r ==> r[category] != [] && forall t :: t in r[category] ==> t in templates[category] && t.name != name
    ensures category in templates && (exists t :: t in templates[category] && t.name != name) ==> category in r
  {
    if category !in templates then templates
    else
      var kept := Without(templates[category], name);
      if kept == [] then templates - {category} else templates[category := kept]
  }

  /** The most recent `HistoryLimit` entries. */
  function Capped(history: seq<HistoryEntry>): (r: seq<HistoryEntry>)
    ensures |r| <= HistoryLimit && |r| <= |history|
    ensures r == history[|history| - |r|..]
    ensures |history| <= HistoryLimit ==> r == history
    ensures |history| > HistoryLimit ==> |r| == HistoryLimit
  {
    if |history| > HistoryLimit then history[|history| - HistoryLimit..] else history
  }

  lemma {:induction false} WithoutAppend(ts: seq<Template>, t: Template, name: string)
    ensures Without(ts + [t], name) == Without(ts, name) + (if t.name != name then [t] else [])
  {
    assert (ts + [t])[..|ts|] == ts;
  }

  /** Removing a name right after adding it under that name is removing it alone. */
  lemma RemoveAfterAdd(templates: Templates, category: string, name: string, description: string)
    ensures RemoveFrom(AddTo(templates, category, name, description), category, name)
      == RemoveFrom(templates, category, name)
  {
    var added := AddTo(templates, category, name, description);
    var before := if category in templates then templates[category] else [];
    assert added[category] == before + [Template(name, description)];
    WithoutAppend(before, Template(name, description), name);
    var kept := Without(before, name);
    assert Without(added[category], name) == kept;
    assert added - {category} == templates - {category};
    if category !in templates {
      assert kept == [];
      assert templates - {category} == templates;
    } else if kept != [] {
      assert added[category := kept] == templates[category := kept];
    }
  }

  /** Adding and removing keep every category non-empty. */
  lemma CategoriesStayNonEmpty(templates: Templates, category: string, name: string, description: string)
    requires NoEmptyCategory(templates)
    ensures NoEmptyCategory(AddTo(templates, category, name, description))
    ensures NoEmptyCategory(RemoveFrom(templates, category, name))
  {
  }

  /** The filter keeps each template with another name as often as it occurs: repeats are not merged. */
  lemma {:induction false} WithoutCounts(ts: seq<Template>, name: string, t: Template)
    requires t.name != name
    ensures multiset(Without(ts, name))[t] == multiset(ts)[t]
    decreases |ts|
  {
    if ts != [] {
      var init := ts[..|ts| - 1];
      var last := ts[|ts| - 1];
      var kept := if last.name != name then [last] else [];
      var rest := Without(init, name);
      WithoutCounts(init, name, t);
      var tail := ts[|ts| - 1..];
      assert ts == init + tail;
      assert tail == [last];
      assert multiset(kept)[t] == multiset(tail)[t] by {
        if last.name == name {
          assert t != last;
        }
      }
      calc {
        multiset(Without(ts, name))[t];
        multiset(rest + kept)[t];
        multiset(rest)[t] + multiset(kept)[t];
        multiset(init)[t] + multiset(tail)[t];
        multiset(init + tail)[t];
      }
    }
  }

  /** Removal keeps every other template of the category: only the templates with that name leave. */
  lemma RemoveFromSpec(templates: Templates, category: string, name: string)
    ensures var r := RemoveFrom(templates, category, name);
      && (category in r ==> r[category] == Without(templates[category], name))
      && (category in templates ==> forall t :: t in templates[category] && t.name != name ==> category in r && t in r[category])
  {
    var r := RemoveFrom(templates, category, name);
    if category in templates {
      forall t | t in templates[category] && t.name != name ensures category in r && t in r[category] {
        assert t in Without(templates[category], name);
      }
    }
  }

  /** Removing twice is removing once. */
  lemma RemoveIdempotent(templates: Templates, category: string, name: string)
    ensures RemoveFrom(RemoveFrom(templates, category, name), category, name) == RemoveFrom(templates, category, name)
  {
    var once := RemoveFrom(templates, category, name);
    if category in once {
      var kept := Without(templates[category], name);
      assert once == templates[category := kept];
      WithoutKeepsClean(kept, name);
      assert once[category := kept] == once;
    }
  }

  lemma {:induction false} WithoutKeepsClean(ts: seq<Template>, name: string)
    requires forall k :: 0 <= k < |ts| ==> ts[k].name != name
    ensures Without(ts, name) == ts
    decreases |ts|
  {
    if ts != [] {
      WithoutKeepsClean(ts[..|ts| - 1], name);
      assert ts == ts[..|ts| - 1] + [ts[|ts| - 1]];
    }
  }

  /**
   * Adding an entry keeps the history at most 100 long, ends it with the new entry, and keeps the
   * entries before it that are among the most recent.
   */
  lemma AppendCapped(history: seq<HistoryEntry>, entry: HistoryEntry)
    ensures var r := Capped(history + [entry]);
      && |r| == (if |history| < HistoryLimit then |history| + 1 else HistoryLimit)
      && r[|r| - 1] == entry
      && r[..|r| - 1] == history[|history| - (|r| - 1)..]
  {
    var h := history + [entry];
    var r := Capped(h);
    assert r[..|r| - 1] == h[|h| - |r|..|h| - 1];
    assert h[..|history|] == history;
  }

  /** Once full, each new entry pushes out exactly the oldest one. */
  lemma FullHistoryDropsOldest(history: seq<HistoryEntry>, entry: HistoryEntry)
    requires |history| == HistoryLimit
    ensures Capped(history + [entry]) == history[1..] + [entry]
  {
  }

  class TaskManager {
    /** Category to templates; what templates.json holds. */
    var templates: Templates
    /** Oldest first; what history.json holds. */
    var history: seq<HistoryEntry>

    /** Starts from the saved files; without a templates file, the defaults; without a history file, none. */
    constructor (savedTemplates: Option<Templates>, savedHistory: Option<seq<HistoryEntry>>)
      ensures templates == savedTemplates.GetOr(DefaultTemplates())
      ensures history == savedHistory.GetOr([])
    {
      templates := savedTemplates.GetOr(DefaultTemplates());
      history := savedHistory.GetOr([]);
    }

    /** `add_template`. */
    method AddTemplate(category: string, name: string, description: string)
      modifies this
      ensures templates == AddTo(old(templates), category, name, description)
      ensures history == old(history)
    {
      if category !in templates {
        templates := templates[category := []];
      }
      templates := templates[category := templates[category] + [Template(name, description)]];
    }

    /** The list comprehension of `remove_template`: the templates not named `name`, in order. */
    static method FilterByName(ts: seq<Template>, name: string) returns (kept: seq<Template>)
      ensures kept == Without(ts, name)
    {
      kept := [];
      for i := 0 to |ts|
        invariant kept == Without(ts[..i], name)
      {
        WithoutAppend(ts[..i], ts[i], name);
        assert ts[..i + 1] == ts[..i] + [ts[i]];
        if ts[i].name != name {
          kept := kept + [ts[i]];
        }
      }
      assert ts[..|ts|] == ts;
    }

    /** `remove_template`: the list comprehension that filters the category. */
    method RemoveTemplate(category: string, name: string)
      modifies this
      ensures templates == RemoveFrom(old(templates), category, name)
      ensures history == old(history)
    {
      if category in templates {
        var kept := FilterByName(templates[category], name);
        templates := templates[category := kept];
        if kept == [] {
          templates := templates - {category};
        }
      }
    }

    /** `add_history`, with the timestamp supplied by the caller. */
    method AddHistory(timestamp: string, task: string, model: string, device: string,
                      success: bool, message: string, steps: int)
      modifies this
      ensures history == Capped(old(history) + [HistoryEntry(timestamp, task, model, device, success, message, steps)])
      ensures templates == old(templates)
    {
      history := history + [HistoryEntry(timestamp, task, model, device, success, message, steps)];
      if |history| > HistoryLimit {
        history := history[|history| - HistoryLimit..];
      }
    }

    /** `clear_history`. */
    method ClearHistory()
      modifies this
      ensures history == []
      ensures templates == old(templates)
    {
      history := [];
    }
  }
}
