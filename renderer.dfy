/**
 * The renderer of api/generator/generator.py: which output format each
 * enabled platform gets, the deduplication of identical formats into one
 * render task each, the worker count, the output file names and the clones
 * for platforms that share a format, the encoder attempt list and the loop
 * that tries it, the overlay position parsing and the overlay text wrapping.
 * Rendering itself, the file system and text measurement are parameters.
 */
module Renderer {
  import opened Wrappers
  import opened Strings
  import opened Protocol

  // ---------------------------------------------------------------------
  // Format tables
  // ---------------------------------------------------------------------

  /** `FORMATS`: the output formats and their frame sizes. */
  const Formats: map<string, (int, int)> :=
    map["9x16" := (1080, 1920), "1x1" := (1080, 1080), "4x5" := (1080, 1350), "16x9" := (1920, 1080)]

  /** `DEFAULT_FORMATS`. */
  const DefaultFormats: map<string, string> :=
    map["tiktok" := "9x16", "instagram" := "4x5", "facebook" := "1x1", "youtube" := "16x9"]

  /** `ALLOWED_FORMATS`. */
  const AllowedFormats: map<string, set<string>> :=
    map["tiktok" := {"9x16"}, "instagram" := {"1x1", "4x5", "9x16"},
        "facebook" := {"1x1", "4x5", "16x9"}, "youtube" := {"9x16", "16x9"}]

  /** `d.get(k)` on a dictionary of strings, `""` standing for a missing or empty (falsy) value. */
  function Get(d: map<string, string>, k: string): string {
    if k in d then d[k] else ""
  }

  /**
   * The format a platform renders in: the selected one, or the platform's
   * default when none is selected or the selection is not allowed for it;
   * nothing when that is not a known format.
   */
  function ResolveFormat(platform: string, selected: map<string, string>): (r: Option<string>)
    ensures r.Some? ==> r.value in Formats
    ensures r.Some? && platform in AllowedFormats ==> r.value in AllowedFormats[platform]
    ensures platform in DefaultFormats ==>
      r == Some(if Get(selected, platform) in AllowedFormats[platform] then Get(selected, platform) else DefaultFormats[platform])
    ensures platform !in DefaultFormats ==>
      r == (if Get(selected, platform) in Formats then Some(Get(selected, platform)) else None)
  {
    var chosen := if Get(selected, platform) != "" then Get(selected, platform) else Get(DefaultFormats, platform);
    var fmt := if platform in AllowedFormats && AllowedFormats[platform] != {} && chosen !in AllowedFormats[platform]
               then Get(DefaultFormats, platform) else chosen;
    if fmt == "" || fmt !in Formats then None else Some(fmt)
  }

  /**
   * The platform-to-format map: the enabled platforms, in order, each with its
   * resolved format; platforms without one are skipped. `platforms` holds the
   * `platforms` setting's entries (distinct keys, in insertion order).
   */
  function PlatformFormats(platforms: seq<(string, bool)>, selected: map<string, string>): (entries: seq<(string, string)>)
    ensures forall e :: e in entries ==> (e.0, true) in platforms && ResolveFormat(e.0, selected) == Some(e.1)
    ensures forall i :: 0 <= i < |platforms| && platforms[i].1 && ResolveFormat(platforms[i].0, selected).Some? ==>
      (platforms[i].0, ResolveFormat(platforms[i].0, selected).value) in entries
    decreases |platforms|
  {
    if |platforms| == 0 then []
    else
      var init := platforms[..|platforms| - 1];
      var (p, enabled) := platforms[|platforms| - 1];
      var rest := PlatformFormats(init, selected);
      assert forall e :: e in init ==> e in platforms;
      assert forall i :: 0 <= i < |init| ==> init[i] == platforms[i];
      var fmt := ResolveFormat(p, selected);
      if enabled && fmt.Some? then rest + [(p, fmt.value)] else rest
  }

  /** The loop that builds `platform_format_map`. */
  method BuildPlatformMap(platforms: seq<(string, bool)>, selected: map<string, string>) returns (entries: seq<(string, string)>)
    ensures entries == PlatformFormats(platforms, selected)
  {
    entries := [];
    for i := 0 to |platforms|
      invariant entries == PlatformFormats(platforms[..i], selected)
    {
      assert platforms[..i + 1][..i] == platforms[..i];
      var (p, enabled) := platforms[i];
      if enabled {
        var fmt := ResolveFormat(p, selected);
        if fmt.Some? {
          entries := entries + [(p, fmt.value)];
        }
      }
    }
    assert platforms[..|platforms|] == platforms;
  }

  // ---------------------------------------------------------------------
  // Deduplication
  // ---------------------------------------------------------------------

  /** One entry of `format_to_platforms`: a format and the platforms that asked for it, in order. */
  datatype Group = Group(fmt: string, platforms: seq<string>)

  function FindGroup(groups: seq<Group>, fmt: string): (r: Option<nat>)
    ensures r.Some? ==> r.value < |groups| && groups[r.value].fmt == fmt
    ensures r.None? ==> forall k :: 0 <= k < |groups| ==> groups[k].fmt != fmt
    decreases |groups|
  {
    if |groups| == 0 then None
    else if groups[0].fmt == fmt then Some(0)
    else match FindGroup(groups[1..], fmt)
      case None => None
      case Some(k) => Some(k + 1)
  }

  /** `format_to_platforms.setdefault(fmt, []).append(platform)`. */
  function AddToGroup(groups: seq<Group>, platform: string, fmt: string): seq<Group> {
    match FindGroup(groups, fmt)
    case None => groups + [Group(fmt, [platform])]
    case Some(k) => groups[k := groups[k].(platforms := groups[k].platforms + [platform])]
  }

  function GroupsOf(entries: seq<(string, string)>): seq<Group>
    decreases |entries|
  {
    if |entries| == 0 then []
    else
      var (p, fmt) := entries[|entries| - 1];
      AddToGroup(GroupsOf(entries[..|entries| - 1]), p, fmt)
  }

  /** The platforms of the map that asked for `fmt`, in order. */
  function WithFormat(entries: seq<(string, string)>, fmt: string): (r: seq<string>)
    ensures forall p :: p in r ==> (p, fmt) in entries
    decreases |entries|
  {
    if |entries| == 0 then []
    else
      var init := entries[..|entries| - 1];
      var rest := WithFormat(init, fmt);
      assert forall e :: e in init ==> e in entries;
      rest + (if entries[|entries| - 1].1 == fmt then [entries[|entries| - 1].0] else [])
  }

  ghost predicate DistinctFormats(groups: seq<Group>) {
    forall i, j :: 0 <= i < j < |groups| ==> groups[i].fmt != groups[j].fmt
  }

  /** The formats that have a group. */
  function GroupFormats(groups: seq<Group>): set<string> {
    set k | 0 <= k < |groups| :: groups[k].fmt
  }

  /** The formats the platform map asks for. */
  function EntryFormats(entries: seq<(string, string)>): set<string> {
    set e | e in entries :: e.1
  }

  /**
   * One `setdefault(...).append(...)` step: the platform joins the group of
   * its format, or opens a new group at the end; no other group changes.
   */
  lemma AddToGroupFacts(groups: seq<Group>, platform: string, fmt: string)
    requires DistinctFormats(groups)
    ensures var g := AddToGroup(groups, platform, fmt);
      && DistinctFormats(g)
      && GroupFormats(g) == GroupFormats(groups) + {fmt}
      && |g| == |groups| + (if fmt in GroupFormats(groups) then 0 else 1)
      && (forall k :: 0 <= k < |groups| ==>
            g[k] == Group(groups[k].fmt, groups[k].platforms + (if groups[k].fmt == fmt then [platform] else [])))
      && (fmt !in GroupFormats(groups) ==> g[|groups|] == Group(fmt, [platform]))
  {
    var g := AddToGroup(groups, platform, fmt);
    match FindGroup(groups, fmt)
    case None =>
      assert fmt !in GroupFormats(groups);
      assert forall k :: 0 <= k < |groups| ==> g[k] == groups[k];
      assert g[|groups|].fmt == fmt;
      assert GroupFormats(g) == GroupFormats(groups) + {fmt} by {
        forall f | f in GroupFormats(g) ensures f in GroupFormats(groups) + {fmt} {
          var k :| 0 <= k < |g| && g[k].fmt == f;
        }
        forall f | f in GroupFormats(groups) ensures f in GroupFormats(g) {
          var k :| 0 <= k < |groups| && groups[k].fmt == f;
          assert g[k].fmt == f;
        }
      }
    case Some(j) =>
      assert fmt in GroupFormats(groups);
      assert forall k :: 0 <= k < |groups| ==> g[k].fmt == groups[k].fmt;
      assert GroupFormats(g) == GroupFormats(groups) by {
        forall f | f in GroupFormats(g) ensures f in GroupFormats(groups) {
          var k :| 0 <= k < |g| && g[k].fmt == f;
        }
        forall f | f in GroupFormats(groups) ensures f in GroupFormats(g) {
          var k :| 0 <= k < |groups| && groups[k].fmt == f;
          assert g[k].fmt == f;
        }
      }
  }

  lemma {:induction false} WithFormatAbsent(entries: seq<(string, string)>, fmt: string)
    requires fmt !in EntryFormats(entries)
    ensures WithFormat(entries, fmt) == []
    decreases |entries|
  {
    if |entries| > 0 {
      var init := entries[..|entries| - 1];
      assert forall e :: e in init ==> e in entries;
      assert entries[|entries| - 1] in entries;
      WithFormatAbsent(init, fmt);
    }
  }

  /** Grouping by format gives one group per distinct format the map asks for. */
  lemma {:induction false} GroupsOfFormats(entries: seq<(string, string)>)
    ensures DistinctFormats(GroupsOf(entries))
    ensures GroupFormats(GroupsOf(entries)) == EntryFormats(entries)
    decreases |entries|
  {
    if |entries| > 0 {
      var init := entries[..|entries| - 1];
      var last := entries[|entries| - 1];
      GroupsOfFormats(init);
      AddToGroupFacts(GroupsOf(init), last.0, last.1);
      assert entries == init + [last];
      assert EntryFormats(entries) == EntryFormats(init) + {last.1} by {
        assert forall e :: e in entries <==> e in init || e == last;
      }
    }
  }

  /**
   * Each group holds exactly the platforms that asked for its format, in map
   * order, and at least one.
   */
  lemma {:induction false} GroupsOfPlatforms(entries: seq<(string, string)>)
    ensures forall k :: 0 <= k < |GroupsOf(entries)| ==>
      GroupsOf(entries)[k].platforms == WithFormat(entries, GroupsOf(entries)[k].fmt) && GroupsOf(entries)[k].platforms != []
    decreases |entries|
  {
    if |entries| > 0 {
      var init := entries[..|entries| - 1];
      var (p, fmt) := entries[|entries| - 1];
      GroupsOfPlatforms(init);
      GroupsOfFormats(init);
      var g0 := GroupsOf(init);
      var g := GroupsOf(entries);
      AddToGroupFacts(g0, p, fmt);
      forall k | 0 <= k < |g| ensures g[k].platforms == WithFormat(entries, g[k].fmt) && g[k].platforms != [] {
        if k == |g0| {
          WithFormatAbsent(init, fmt);
        }
      }
    }
  }

  /** The loop that builds `format_to_platforms`. */
  method GroupByFormat(entries: seq<(string, string)>) returns (groups: seq<Group>)
    ensures groups == GroupsOf(entries)
  {
    groups := [];
    for i := 0 to |entries|
      invariant groups == GroupsOf(entries[..i])
    {
      assert entries[..i + 1][..i] == entries[..i];
      groups := AddToGroup(groups, entries[i].0, entries[i].1);
    }
    assert entries[..|entries|] == entries;
  }

  /** At most as many groups as there are formats. */
  lemma {:induction false} DistinctFormatsBound(groups: seq<Group>, known: set<string>)
    requires DistinctFormats(groups)
    requires forall k :: 0 <= k < |groups| ==> groups[k].fmt in known
    ensures |groups| <= |known|
    decreases |groups|
  {
    if |groups| > 0 {
      var last := groups[|groups| - 1].fmt;
      DistinctFormatsBound(groups[..|groups| - 1], known - {last});
    }
  }

  /** A render task: the format and the name of the platform whose name the primary file carries. */
  datatype Task = Task(fmt: string, primaryLabel: string)

  /** The task of a group: its format, labelled with its first platform upper-cased. */
  function TaskOf(g: Group): Task {
    Task(g.fmt, if |g.platforms| > 0 then AsciiUpper(g.platforms[0]) else "")
  }

  /**
   * Deduplication pays: one task per distinct format, so never more than four
   * tasks, and every enabled platform with a resolved format has its format's
   * task.
   */
  lemma TasksDeduplicated(platforms: seq<(string, bool)>, selected: map<string, string>)
    ensures DistinctFormats(GroupsOf(PlatformFormats(platforms, selected)))
    ensures |GroupsOf(PlatformFormats(platforms, selected))| <= 4
    ensures forall i :: 0 <= i < |platforms| && platforms[i].1 && ResolveFormat(platforms[i].0, selected).Some? ==>
      ResolveFormat(platforms[i].0, selected).value in GroupFormats(GroupsOf(PlatformFormats(platforms, selected)))
  {
    var entries := PlatformFormats(platforms, selected);
    var g := GroupsOf(entries);
    GroupsOfFormats(entries);
    forall k | 0 <= k < |g| ensures g[k].fmt in Formats.Keys {
      assert g[k].fmt in EntryFormats(entries);
    }
    DistinctFormatsBound(g, Formats.Keys);
    assert Formats.Keys == {"9x16", "1x1", "4x5", "16x9"};
    forall i | 0 <= i < |platforms| && platforms[i].1 && ResolveFormat(platforms[i].0, selected).Some?
      ensures ResolveFormat(platforms[i].0, selected).value in GroupFormats(g)
    {
      var e := (platforms[i].0, ResolveFormat(platforms[i].0, selected).value);
      assert e in entries;
    }
  }

  /** `min(max(1, min(4, requested)), len(tasks), cpu_count)`. */
  function WorkerCount(requested: int, tasks: nat, cpus: nat): (n: int)
    ensures n <= tasks && n <= cpus && n <= 4
    ensures tasks >= 1 && cpus >= 1 ==> n >= 1
    ensures tasks >= 4 && cpus >= 4 && requested >= 4 ==> n == 4
    ensures n <= (if requested < 1 then 1 else requested)
  {
    var wanted := if requested < 1 then 1 else if requested > 4 then 4 else requested;
    var n := if wanted < tasks then wanted else tasks;
    if n < cpus then n else cpus
  }

  // ---------------------------------------------------------------------
  // Output names and clones
  // ---------------------------------------------------------------------

  /** The file a render writes: `<property>_<label>_<format>.mp4`, ` + ` in the label turned into `_`; no label part when the label is empty. */
  function OutputName(propertyId: string, labelText: string, fmt: string): string {
    if labelText != "" then propertyId + "_" + ReplaceAll(labelText, " + ", "_") + "_" + fmt + ".mp4"
    else propertyId + "_" + fmt + ".mp4"
  }

  /** The name the clone step builds for a platform label. */
  function CloneName(propertyId: string, labelText: string, fmt: string): string {
    propertyId + "_" + labelText + "_" + fmt + ".mp4"
  }

  /**
   * The clone step looks for the primary file under the very name the render
   * wrote it, when the label is non-empty and holds no ` + `.
   */
  lemma PrimaryNameAgrees(propertyId: string, labelText: string, fmt: string)
    requires labelText != "" && forall k :: !OccursAt(labelText, " + ", k)
    ensures OutputName(propertyId, labelText, fmt) == CloneName(propertyId, labelText, fmt)
  {
  }

  /** The clones made for the platforms after the first of a group: those whose copy succeeded, in order. */
  function CopiedNames(propertyId: string, platforms: seq<string>, fmt: string, copied: string -> bool): (names: seq<string>)
    ensures forall n :: n in names ==> copied(n) && exists p :: p in platforms && n == CloneName(propertyId, AsciiUpper(p), fmt)
    ensures forall p :: p in platforms && copied(CloneName(propertyId, AsciiUpper(p), fmt)) ==>
      CloneName(propertyId, AsciiUpper(p), fmt) in names
    decreases |platforms|
  {
    if |platforms| == 0 then []
    else
      var init := platforms[..|platforms| - 1];
      var p := platforms[|platforms| - 1];
      var name := CloneName(propertyId, AsciiUpper(p), fmt);
      assert forall q :: q in init ==> q in platforms;
      assert forall q :: q in platforms ==> q in init || q == p;
      CopiedNames(propertyId, init, fmt, copied) + (if copied(name) then [name] else [])
  }

  /** A group's clones: none for a lone platform or when the primary file is missing. */
  function GroupClones(propertyId: string, g: Group, exists_: string -> bool, copied: string -> bool): seq<string> {
    if |g.platforms| <= 1 || !exists_(CloneName(propertyId, AsciiUpper(g.platforms[0]), g.fmt)) then []
    else CopiedNames(propertyId, g.platforms[1..], g.fmt, copied)
  }

  function AllClones(propertyId: string, groups: seq<Group>, exists_: string -> bool, copied: string -> bool): seq<string>
    decreases |groups|
  {
    if |groups| == 0 then []
    else AllClones(propertyId, groups[..|groups| - 1], exists_, copied) + GroupClones(propertyId, groups[|groups| - 1], exists_, copied)
  }

  /** The loop over `format_to_platforms` that copies the primary file for every further platform of a format. */
  method CloneOutputs(propertyId: string, groups: seq<Group>, exists_: string -> bool, copied: string -> bool)
    returns (names: seq<string>)
    ensures names == AllClones(propertyId, groups, exists_, copied)
  {
    names := [];
    for k := 0 to |groups|
      invariant names == AllClones(propertyId, groups[..k], exists_, copied)
    {
      assert groups[..k + 1][..k] == groups[..k];
      var g := groups[k];
      if |g.platforms| <= 1 || !exists_(CloneName(propertyId, AsciiUpper(g.platforms[0]), g.fmt)) {
        continue;
      }
      var rest := g.platforms[1..];
      var made: seq<string> := [];
      for i := 0 to |rest|
        invariant made == CopiedNames(propertyId, rest[..i], g.fmt, copied)
      {
        assert rest[..i + 1][..i] == rest[..i];
        var name := CloneName(propertyId, AsciiUpper(rest[i]), g.fmt);
        if copied(name) {
          made := made + [name];
        }
      }
      assert rest[..|rest|] == rest;
      names := names + made;
    }
    assert groups[..|groups|] == groups;
  }

  lemma {:induction false} AllClonesMember(propertyId: string, groups: seq<Group>, exists_: string -> bool,
                                           copied: string -> bool, n: string)
    requires n in AllClones(propertyId, groups, exists_, copied)
    ensures exists k :: (0 <= k < |groups| && 2 <= |groups[k].platforms|
      && exists_(CloneName(propertyId, AsciiUpper(groups[k].platforms[0]), groups[k].fmt))
      && n in CopiedNames(propertyId, groups[k].platforms[1..], groups[k].fmt, copied))
    decreases |groups|
  {
    var init := groups[..|groups| - 1];
    if n in AllClones(propertyId, init, exists_, copied) {
      AllClonesMember(propertyId, init, exists_, copied, n);
      var k :| 0 <= k < |init| && 2 <= |init[k].platforms|
        && exists_(CloneName(propertyId, AsciiUpper(init[k].platforms[0]), init[k].fmt))
        && n in CopiedNames(propertyId, init[k].platforms[1..], init[k].fmt, copied);
      assert groups[k] == init[k];
    } else {
      assert n in GroupClones(propertyId, groups[|groups| - 1], exists_, copied);
    }
  }

  /**
   * Every clone belongs to an enabled platform that is not the first of its
   * format: it is named after that platform and the format the platform
   * resolved to, and the copy succeeded.
   */
  lemma ClonesBelongToPlatforms(platforms: seq<(string, bool)>, selected: map<string, string>, propertyId: string,
                                exists_: string -> bool, copied: string -> bool, n: string)
    requires n in AllClones(propertyId, GroupsOf(PlatformFormats(platforms, selected)), exists_, copied)
    ensures copied(n)
    ensures exists p :: ((p, true) in platforms && ResolveFormat(p, selected).Some?
      && n == CloneName(propertyId, AsciiUpper(p), ResolveFormat(p, selected).value))
  {
    var entries := PlatformFormats(platforms, selected);
    var g := GroupsOf(entries);
    GroupsOfPlatforms(entries);
    AllClonesMember(propertyId, g, exists_, copied, n);
    var k :| 0 <= k < |g| && 2 <= |g[k].platforms|
      && exists_(CloneName(propertyId, AsciiUpper(g[k].platforms[0]), g[k].fmt))
      && n in CopiedNames(propertyId, g[k].platforms[1..], g[k].fmt, copied);
    var p :| p in g[k].platforms[1..] && n == CloneName(propertyId, AsciiUpper(p), g[k].fmt);
    assert p in g[k].platforms;
    assert (p, g[k].fmt) in entries;
    assert (p, true) in platforms && ResolveFormat(p, selected) == Some(g[k].fmt);
  }

  // ---------------------------------------------------------------------
  // Rendering a task
  // ---------------------------------------------------------------------

  /** One encoder configuration. */
  datatype Attempt = Attempt(codec: string, preset: string, params: seq<string>, threads: int)

  /** The software encoder for a (lower-cased) render profile. */
  function CpuAttempt(profile: string, threads: int): Attempt {
    if profile == "final_quality" then Attempt("libx264", "medium", ["-crf", "20"], threads)
    else if profile == "balanced" then Attempt("libx264", "faster", ["-crf", "21"], threads)
    else Attempt("libx264", "veryfast", ["-crf", "22"], threads)
  }

  const NvencAttemptParams: seq<string> := ["-cq", "23", "-rc", "vbr", "-b:v", "0"]

  function HasCodec(attempts: seq<Attempt>, codec: string): bool {
    exists i :: 0 <= i < |attempts| && attempts[i].codec == codec
  }

  function Codecs(attempts: seq<Attempt>): (codecs: seq<string>)
    ensures |codecs| == |attempts| && forall i :: 0 <= i < |attempts| ==> codecs[i] == attempts[i].codec
  {
    seq(|attempts|, i requires 0 <= i < |attempts| => attempts[i].codec)
  }

  /** The profiles that keep the software encoder first. */
  predicate FastProfile(profile: string) {
    profile == "fast_parallel" || profile == "preview"
  }

  /**
   * `encode_attempts` for the `renderProfile` setting: with hardware encoding
   * preferred, the software encoder first for the fast profiles, then NVENC
   * when the CUDA runtime is there, then QSV, then the software encoder if it
   * is not in yet; without, the software encoder alone.
   */
  function EncodeAttempts(profileSetting: string, useHardware: bool, nvencAvailable: bool, threads: int): (attempts: seq<Attempt>)
    ensures |attempts| >= 1
    ensures forall i :: 0 <= i < |attempts| && attempts[i].codec == "libx264" ==> attempts[i] == CpuAttempt(AsciiLower(profileSetting), threads)
    ensures forall i :: 0 <= i < |attempts| ==> attempts[i].threads == threads
  {
    var profile := AsciiLower(profileSetting);
    var cpu := CpuAttempt(profile, threads);
    if !useHardware then [cpu]
    else
      var first := if FastProfile(profile) then [cpu] else [];
      var nvenc := if nvencAvailable then [Attempt("h264_nvenc", "p4", NvencAttemptParams, threads)] else [];
      var attempts := first + nvenc + [Attempt("h264_qsv", "medium", ["-global_quality", "23"], threads)];
      if HasCodec(attempts, "libx264") then attempts else attempts + [cpu]
  }

  /** The encoders in the order they are tried. */
  lemma EncoderOrder(profileSetting: string, useHardware: bool, nvencAvailable: bool, threads: int)
    ensures var codecs := Codecs(EncodeAttempts(profileSetting, useHardware, nvencAvailable, threads));
      && (!useHardware ==> codecs == ["libx264"])
      && (useHardware && FastProfile(AsciiLower(profileSetting)) ==>
            codecs == ["libx264"] + (if nvencAvailable then ["h264_nvenc"] else []) + ["h264_qsv"])
      && (useHardware && !FastProfile(AsciiLower(profileSetting)) ==>
            codecs == (if nvencAvailable then ["h264_nvenc"] else []) + ["h264_qsv", "libx264"])
  {
    var attempts := EncodeAttempts(profileSetting, useHardware, nvencAvailable, threads);
    var codecs := Codecs(attempts);
    if useHardware {
      var profile := AsciiLower(profileSetting);
      var cpu := CpuAttempt(profile, threads);
      var qsv := Attempt("h264_qsv", "medium", ["-global_quality", "23"], threads);
      var nv := Attempt("h264_nvenc", "p4", NvencAttemptParams, threads);
      var nvenc := if nvencAvailable then [nv] else [];
      if FastProfile(profile) {
        var tried := [cpu] + nvenc + [qsv];
        assert tried[0].codec == "libx264";
        assert attempts == tried;
        assert codecs == ["libx264"] + (if nvencAvailable then ["h264_nvenc"] else []) + ["h264_qsv"];
      } else {
        var tried := [] + nvenc + [qsv];
        assert !HasCodec(tried, "libx264") by {
          assert forall i :: 0 <= i < |tried| ==> tried[i] == nv || tried[i] == qsv;
          assert nv.codec != "libx264" && qsv.codec != "libx264";
        }
        assert attempts == tried + [cpu];
        assert codecs == (if nvencAvailable then ["h264_nvenc"] else []) + ["h264_qsv", "libx264"];
      }
    }
  }

  /** The software encoder is always tried, and only once, whatever the settings. */
  lemma SoftwareEncoderOnce(profileSetting: string, useHardware: bool, nvencAvailable: bool, threads: int)
    ensures multiset(Codecs(EncodeAttempts(profileSetting, useHardware, nvencAvailable, threads)))["libx264"] == 1
  {
    EncoderOrder(profileSetting, useHardware, nvencAvailable, threads);
    assert "h264_nvenc" != "libx264" && "h264_qsv" != "libx264";
  }

  /**
   * The attempt loop: try each attempt in order and stop at the first that
   * writes the file (`failure` gives `None` for it); otherwise remember the
   * last failure. `used` is the index of the attempt that succeeded.
   */
  method RunAttempts(attempts: seq<Attempt>, failure: Attempt -> Option<string>) returns (used: Option<nat>, lastError: Option<string>)
    ensures used.Some? ==> used.value < |attempts| && failure(attempts[used.value]).None? && lastError.None?
    ensures used.Some? ==> forall j :: 0 <= j < used.value ==> failure(attempts[j]).Some?
    ensures used.None? ==> forall j :: 0 <= j < |attempts| ==> failure(attempts[j]).Some?
    ensures used.None? ==> lastError == (if |attempts| == 0 then None else failure(attempts[|attempts| - 1]))
  {
    lastError := None;
    for i := 0 to |attempts|
      invariant forall j :: 0 <= j < i ==> failure(attempts[j]).Some?
      invariant lastError == (if i == 0 then None else failure(attempts[i - 1]))
    {
      var err := failure(attempts[i]);
      if err.None? {
        return Some(i), None;
      }
      lastError := err;
    }
    return None, lastError;
  }

  /** What one render task gives the pool: a file name, nothing, or an exception. */
  datatype RenderOutcome = Rendered(name: string) | NoOutput | Raised(message: string)

  /**
   * The end of `generate_format` for a task: the output name when an attempt
   * succeeds, the last failure raised when all fail, nothing when there was no
   * attempt to make.
   */
  method FinishFormat(propertyId: string, task: Task, attempts: seq<Attempt>, failure: Attempt -> Option<string>)
    returns (outcome: RenderOutcome)
    ensures outcome.Rendered? <==> exists j :: 0 <= j < |attempts| && failure(attempts[j]).None?
    ensures outcome.Rendered? ==> outcome.name == OutputName(propertyId, task.primaryLabel, task.fmt)
    ensures outcome.Raised? ==> |attempts| > 0 && Some(outcome.message) == failure(attempts[|attempts| - 1])
    ensures outcome.NoOutput? ==> attempts == []
  {
    var used, lastError := RunAttempts(attempts, failure);
    if used.Some? {
      return Rendered(OutputName(propertyId, task.primaryLabel, task.fmt));
    }
    if lastError.Some? {
      return Raised(lastError.value);
    }
    return NoOutput;
  }

  // ---------------------------------------------------------------------
  // The whole slideshow
  // ---------------------------------------------------------------------

  /**
   * The exception the pool re-raises. The pool raises the failure of whichever
   * task finishes first; with no timing in the model, this takes the first one
   * in task order. The contract only promises that some task raised it.
   */
  function FirstRaised(results: seq<RenderOutcome>): (r: Option<string>)
    ensures r.None? <==> forall i :: 0 <= i < |results| ==> !results[i].Raised?
    ensures r.Some? ==> exists i :: 0 <= i < |results| && results[i] == Raised(r.value)
    decreases |results|
  {
    if |results| == 0 then None
    else if results[0].Raised? then Some(results[0].message)
    else
      var r := FirstRaised(results[1..]);
      assert forall i :: 1 <= i < |results| ==> results[i] == results[1..][i - 1];
      r
  }

  /** `[f for f in results if f]`. */
  function RenderedNames(results: seq<RenderOutcome>): (names: seq<string>)
    ensures forall n :: n in names <==> n != "" && Rendered(n) in results
    decreases |results|
  {
    if |results| == 0 then []
    else
      var rest := RenderedNames(results[1..]);
      assert forall x :: x in results <==> x == results[0] || x in results[1..];
      (if results[0].Rendered? && results[0].name != "" then [results[0].name] else []) + rest
  }

  /** The pool's results, in task order (`pool.map` keeps the order of its inputs). */
  function TaskResults(groups: seq<Group>, render: Task -> RenderOutcome): (results: seq<RenderOutcome>)
    ensures |results| == |groups|
    ensures forall k :: 0 <= k < |groups| ==> results[k] == render(TaskOf(groups[k]))
    decreases |groups|
  {
    if |groups| == 0 then []
    else TaskResults(groups[..|groups| - 1], render) + [render(TaskOf(groups[|groups| - 1]))]
  }

  /**
   * `generate_slideshow`: nothing when no platform resolves to a format;
   * otherwise one render per distinct format (`render` stands for the pool
   * running `generate_format`), the names of the files written, then the
   * clones; an exception in a render is the slideshow's exception.
   */
  function Slideshow(platforms: seq<(string, bool)>, selected: map<string, string>, propertyId: string,
                     render: Task -> RenderOutcome, exists_: string -> bool, copied: string -> bool): Result<seq<string>, string>
  {
    var entries := PlatformFormats(platforms, selected);
    if entries == [] then Ok([])
    else
      var groups := GroupsOf(entries);
      var results := TaskResults(groups, render);
      match FirstRaised(results)
      case Some(message) => Err(message)
      case None => Ok(RenderedNames(results) + AllClones(propertyId, groups, exists_, copied))
  }

  /** The slideshow's steps in order: the map, the grouping, the tasks, the pool, the filter, the clones. */
  method GenerateSlideshow(platforms: seq<(string, bool)>, selected: map<string, string>, propertyId: string,
                           render: Task -> RenderOutcome, exists_: string -> bool, copied: string -> bool)
    returns (r: Result<seq<string>, string>)
    ensures r == Slideshow(platforms, selected, propertyId, render, exists_, copied)
  {
    var entries := BuildPlatformMap(platforms, selected);
    if entries == [] {
      return Ok([]);
    }
    var groups := GroupByFormat(entries);
    var results: seq<RenderOutcome> := [];
    for k := 0 to |groups|
      invariant results == TaskResults(groups[..k], render)
    {
      assert groups[..k + 1][..k] == groups[..k];
      results := results + [render(TaskOf(groups[k]))];
    }
    assert groups[..|groups|] == groups;
    var raised := FirstRaised(results);
    if raised.Some? {
      return Err(raised.value);
    }
    var primary := RenderedNames(results);
    var clones := CloneOutputs(propertyId, groups, exists_, copied);
    return Ok(primary + clones);
  }

  /**
   * What the renderer prints: a success record listing exactly the slideshow's
   * files, or an error record with the exception's message; the exit code is 0
   * either way.
   */
  lemma RendererRecord(platforms: seq<(string, bool)>, selected: map<string, string>, propertyId: string,
                       render: Task -> RenderOutcome, exists_: string -> bool, copied: string -> bool)
    ensures var outcome := Slideshow(platforms, selected, propertyId, render, exists_, copied);
      var exit := MainExit(outcome);
      && exit.code == 0
      && (outcome.Ok? ==> exit.record == ResultRecord("success", Some(outcome.value), ""))
      && (outcome.Err? ==> exit.record.status == "error" && exit.record.message == outcome.error)
  {
  }

  // ---------------------------------------------------------------------
  // Overlay position and text wrapping
  // ---------------------------------------------------------------------

  /** The overlay's placement: the vertical part, the horizontal part and the text alignment. */
  datatype Placement = Placement(vertical: string, horizontal: string, align: string)

  /**
   * The `position` setting: `custom` places freely and centres; otherwise the
   * part before the first `-` is vertical and the one after it horizontal
   * (`center` alone is centred, a single word is left-aligned); alignment is
   * the horizontal part when that is left, center or right, else left.
   */
  function ParsePosition(position: string): (p: Placement)
    ensures p.align in {"left", "center", "right"}
    ensures p.align == (if p.horizontal in {"left", "center", "right"} then p.horizontal else "left")
    ensures position == "custom" ==> p == Placement("custom", "center", "center")
    ensures position == "center" ==> p == Placement("center", "center", "center")
    ensures position != "custom" && position != "center" && '-' !in position ==> p == Placement(position, "left", "left")
  {
    if position == "custom" then Placement("custom", "center", "center")
    else
      var parts := Split(position, '-');
      var vertical := parts[0];
      var horizontal := if position == "center" then "center" else if |parts| > 1 then parts[1] else "left";
      assert '-' !in position ==> parts == [position];
      Placement(vertical, horizontal, if horizontal in {"left", "center", "right"} then horizontal else "left")
  }

  /** `vertical-horizontal` is read back as its two parts. */
  lemma ParsePositionOfPair(vertical: string, horizontal: string)
    requires '-' !in vertical && '-' !in horizontal
    ensures ParsePosition(vertical + "-" + horizontal).vertical == vertical
    ensures ParsePosition(vertical + "-" + horizontal).horizontal == horizontal
  {
    var position := vertical + "-" + horizontal;
    assert Join([vertical, horizontal], "-") == position;
    SplitJoin([vertical, horizontal], '-');
    assert position != "custom" && position != "center" by {
      assert position[|vertical|] == '-';
    }
  }

  /**
   * The lines `wrap_by_chars` makes of `rest` when `current` is the line being
   * grown: a character joins the line when the line is empty or still fits
   * with it, and otherwise starts the next line.
   */
  function CharWrapFrom(rest: string, current: string, fits: string -> bool): seq<string>
    decreases |rest|
  {
    if |rest| == 0 then (if current == [] then [] else [current])
    else
      var test := current + [rest[0]];
      if current == [] || fits(test) then CharWrapFrom(rest[1..], test, fits)
      else [current] + CharWrapFrom(rest[1..], [rest[0]], fits)
  }

  /** `lines` are the lines already closed when the wrap of `value` has `rest` left and `current` open. */
  predicate WrapsTo(lines: seq<string>, rest: string, current: string, value: string, fits: string -> bool) {
    lines + CharWrapFrom(rest, current, fits) == CharWrap(value, fits)
  }

  /** One character of `value` taken by the greedy wrap. */
  lemma CharWrapStep(lines: seq<string>, value: string, i: nat, current: string, fits: string -> bool)
    requires i < |value|
    requires WrapsTo(lines, value[i..], current, value, fits)
    ensures current == [] || fits(current + [value[i]]) ==> WrapsTo(lines, value[i + 1..], current + [value[i]], value, fits)
    ensures !(current == [] || fits(current + [value[i]])) ==> WrapsTo(lines + [current], value[i + 1..], [value[i]], value, fits)
  {
    assert value[i..][0] == value[i] && value[i..][1..] == value[i + 1..];
    var next := CharWrapFrom(value[i + 1..], [value[i]], fits);
    assert lines + ([current] + next) == (lines + [current]) + next;
  }

  /** The wrap's last step: the open line, if any, is closed. */
  lemma CharWrapEnd(lines: seq<string>, value: string, current: string, fits: string -> bool)
    requires WrapsTo(lines, value[|value|..], current, value, fits)
    ensures CharWrap(value, fits) == lines + (if current == [] then [] else [current])
  {
    assert value[|value|..] == [];
  }

  /** The greedy wrap of `value` by characters. */
  function CharWrap(value: string, fits: string -> bool): seq<string> {
    CharWrapFrom(value, [], fits)
  }

  /**
   * `wrap_by_chars`: grow the current line one character at a time while it
   * fits (`fits` stands for measuring against the maximum width); a character
   * that does not fit starts the next line.
   */
  method WrapByChars(value: string, fits: string -> bool) returns (lines: seq<string>)
    ensures Concat(lines) == value
    ensures forall k :: 0 <= k < |lines| ==> lines[k] != [] && (fits(lines[k]) || |lines[k]| == 1)
    ensures forall k :: 0 <= k < |lines| - 1 ==> !fits(lines[k] + [lines[k + 1][0]])
    ensures lines == CharWrap(value, fits)
  {
    lines := [];
    var current: string := [];
    assert value[0..] == value && value[..0] == [];
    for i := 0 to |value|
      invariant CharsSoFar(lines, current, value, i, fits)
    {
      CharsStep(lines, current, value, i, fits);
      if current == [] || fits(current + [value[i]]) {
        current := current + [value[i]];
      } else {
        lines := lines + [current];
        current := [value[i]];
      }
    }
    CharsEnd(lines, current, value, fits);
    if current != [] {
      lines := lines + [current];
    }
  }

  /** The state of the wrap by characters after the first `i` characters of `value`. */
  predicate CharsSoFar(lines: seq<string>, current: string, value: string, i: nat, fits: string -> bool)
    requires i <= |value|
  {
    && WrapsTo(lines, value[i..], current, value, fits)
    && Concat(lines) + current == value[..i]
    && CharLines(lines, fits)
    && (current == [] || fits(current) || |current| == 1)
    && (|lines| > 0 ==> current != [] && !fits(lines[|lines| - 1] + [current[0]]))
  }

  /** Character `i` either grows the open line or closes it and opens the next. */
  lemma CharsStep(lines: seq<string>, current: string, value: string, i: nat, fits: string -> bool)
    requires i < |value| && CharsSoFar(lines, current, value, i, fits)
    ensures current == [] || fits(current + [value[i]]) ==> CharsSoFar(lines, current + [value[i]], value, i + 1, fits)
    ensures !(current == [] || fits(current + [value[i]])) ==> CharsSoFar(lines + [current], [value[i]], value, i + 1, fits)
  {
    assert value[..i + 1] == value[..i] + [value[i]];
    CharWrapStep(lines, value, i, current, fits);
    if !(current == [] || fits(current + [value[i]])) {
      ConcatAppend(lines, [current]);
      assert Concat([current]) == current;
      PushCharLine(lines, current, fits);
    }
  }

  /** At the end of the text the open line, if any, is the last line. */
  lemma CharsEnd(lines: seq<string>, current: string, value: string, fits: string -> bool)
    requires CharsSoFar(lines, current, value, |value|, fits)
    ensures var r := lines + (if current == [] then [] else [current]);
      r == CharWrap(value, fits) && Concat(r) == value && CharLines(r, fits)
  {
    assert value[..|value|] == value;
    CharWrapEnd(lines, value, current, fits);
    if current != [] {
      ConcatAppend(lines, [current]);
      assert Concat([current]) == current;
      PushCharLine(lines, current, fits);
    } else {
      assert lines + [] == lines;
    }
  }

  /**
   * The lines of a wrap by characters: non-empty, within the width unless a
   * single character, and each too full to take the next line's first
   * character.
   */
  predicate CharLines(lines: seq<string>, fits: string -> bool) {
    && (forall k :: 0 <= k < |lines| ==> lines[k] != [] && (fits(lines[k]) || |lines[k]| == 1))
    && (forall k :: 0 <= k < |lines| - 1 ==> !fits(lines[k] + [lines[k + 1][0]]))
  }

  /** Closing a line that the next character did not fit keeps the wrap's shape. */
  lemma PushCharLine(lines: seq<string>, current: string, fits: string -> bool)
    requires CharLines(lines, fits)
    requires current != [] && (fits(current) || |current| == 1)
    requires |lines| > 0 ==> !fits(lines[|lines| - 1] + [current[0]])
    ensures CharLines(lines + [current], fits)
  {
    var r := lines + [current];
    forall k | 0 <= k < |r| - 1 ensures !fits(r[k] + [r[k + 1][0]]) {
      if k < |lines| - 1 {
        assert r[k] == lines[k] && r[k + 1] == lines[k + 1];
      } else {
        assert r[k] == lines[|lines| - 1] && r[k + 1] == current;
      }
    }
  }

  /** The lines one pair becomes: itself when it fits, its wrap by characters otherwise. */
  function PairLines(pair: string, fits: string -> bool): seq<string> {
    if fits(pair) then [pair] else CharWrap(pair, fits)
  }

  /** The lines of each pair in turn, one after the other. */
  function WrappedPairs(pairs: seq<string>, fits: string -> bool): seq<string>
    decreases |pairs|
  {
    if |pairs| == 0 then []
    else WrappedPairs(pairs[..|pairs| - 1], fits) + PairLines(pairs[|pairs| - 1], fits)
  }

  /** What the wrap has produced after the first `i` pairs. */
  predicate WrapSoFar(lines: seq<string>, pairs: seq<string>, i: nat, fits: string -> bool)
    requires i <= |pairs|
  {
    && lines == WrappedPairs(pairs[..i], fits)
    && Concat(lines) == Concat(pairs[..i])
    && (forall k :: 0 <= k < |lines| ==> lines[k] != [] && (fits(lines[k]) || |lines[k]| == 1))
    && (forall j :: 0 <= j < i && fits(pairs[j]) ==> pairs[j] in lines)
    && (i > 0 ==> lines != [])
  }

  /** One more pair adds its characters and its lines at the end. */
  lemma PrefixStep(pairs: seq<string>, i: nat, fits: string -> bool)
    requires i < |pairs|
    ensures Concat(pairs[..i + 1]) == Concat(pairs[..i]) + pairs[i]
    ensures WrappedPairs(pairs[..i + 1], fits) == WrappedPairs(pairs[..i], fits) + PairLines(pairs[i], fits)
  {
    assert pairs[..i + 1] == pairs[..i] + [pairs[i]];
    ConcatAppend(pairs[..i], [pairs[i]]);
    assert Concat([pairs[i]]) == pairs[i];
    assert pairs[..i + 1][..i] == pairs[..i];
  }

  /** Taking pair `i`: its lines come after those of the pairs before it. */
  lemma WrapStep(lines: seq<string>, pairs: seq<string>, i: nat, piece: seq<string>, fits: string -> bool)
    requires i < |pairs| && WrapSoFar(lines, pairs, i, fits)
    requires piece == PairLines(pairs[i], fits) && piece != [] && Concat(piece) == pairs[i]
    requires forall k :: 0 <= k < |piece| ==> piece[k] != [] && (fits(piece[k]) || |piece[k]| == 1)
    ensures WrapSoFar(lines + piece, pairs, i + 1, fits)
  {
    PrefixStep(pairs, i, fits);
    ConcatAppend(lines, piece);
    var r := lines + piece;
    forall j | 0 <= j < i + 1 && fits(pairs[j]) ensures pairs[j] in r {
      if j == i {
        assert r[|lines|] == pairs[i];
      } else {
        assert pairs[j] in lines;
      }
    }
  }

  /**
   * `wrap_text`: the words of the text, two to a line; a pair that fits is a
   * line, one that does not is broken by characters. The lines are exactly the
   * pairs' lines in pair order. Every character of the pairs comes out in
   * order, every line is non-empty and fits unless it is a single character,
   * and every pair that fits is a line of its own.
   */
  method WrapText(value: string, fits: string -> bool) returns (lines: seq<string>)
    ensures Concat(lines) == Concat(Pairs(Words(value, IsPySpace)))
    ensures forall k :: 0 <= k < |lines| ==> lines[k] != [] && (fits(lines[k]) || |lines[k]| == 1)
    ensures forall p :: p in Pairs(Words(value, IsPySpace)) && fits(p) ==> p in lines
    ensures lines == [] <==> forall i :: 0 <= i < |value| ==> IsPySpace(value[i])
    ensures lines == WrappedPairs(Pairs(Words(value, IsPySpace)), fits)
  {
    var words := Words(value, IsPySpace);
    WordsKeepText(value, IsPySpace);
    AllSeparatorsIffEmpty(value, IsPySpace);
    assert words == [] <==> Concat(words) == [] by {
      if words != [] {
        assert Concat(words) == words[0] + Concat(words[1..]);
      }
    }
    if words == [] {
      assert Pairs(words) == [];
      return [];
    }
    var pairs := PairUp(words);
    PairsNonEmpty(words);
    lines := [];
    for i := 0 to |pairs|
      invariant WrapSoFar(lines, pairs, i, fits)
    {
      var piece: seq<string>;
      if fits(pairs[i]) {
        piece := [pairs[i]];
        assert Concat(piece) == pairs[i];
      } else {
        piece := WrapByChars(pairs[i], fits);
        assert piece != [];
      }
      WrapStep(lines, pairs, i, piece, fits);
      lines := lines + piece;
    }
    assert pairs[..|pairs|] == pairs;
  }

  lemma {:induction false} PairsNonEmpty(words: seq<string>)
    requires forall i :: 0 <= i < |words| ==> |words[i]| > 0
    ensures forall i :: 0 <= i < |Pairs(words)| ==> |Pairs(words)[i]| > 0
    ensures |words| > 0 ==> |Pairs(words)| > 0
  {
    forall i | 0 <= i < |Pairs(words)| ensures |Pairs(words)[i]| > 0 {
      PairsAt(words, i);
    }
  }
}
