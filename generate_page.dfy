/**
 * The list and input helpers of the generation page, src/pages/Generate.tsx:
 * adding dropped or chosen images under the cap, removing one, moving one by
 * drag and drop, the two-words-per-line preview of the overlay text, the
 * start guard, and the font-size input's clamp.
 */
module GeneratePage {
  import opened Wrappers
  import opened Strings
  import opened GenerationStore

  /** A file the browser hands over: its name and MIME type. */
  datatype Upload = Upload(name: string, mimeType: string)

  /** `FileItem`: the file, its preview URL and its list key. */
  datatype FileItem = FileItem(file: Upload, preview: string, id: string)

  /** `MAX_IMAGES`. */
  const MaxImages: nat := 100

  predicate IsImage(f: Upload) {
    |f.mimeType| >= 6 && f.mimeType[..6] == "image/"
  }

  /** `newFiles.filter(f => f.type.startsWith('image/'))`. */
  function Images(files: seq<Upload>): (images: seq<Upload>)
    ensures |images| <= |files|
    ensures forall i :: 0 <= i < |images| ==> IsImage(images[i])
    ensures forall f :: f in images <==> f in files && IsImage(f)
    decreases |files|
  {
    if |files| == 0 then []
    else
      var init := files[..|files| - 1];
      var last := files[|files| - 1];
      assert forall f :: f in files <==> f in init || f == last;
      Images(init) + (if IsImage(last) then [last] else [])
  }

  /** Filtering keeps the order: the images of two batches are the images of each, one after the other. */
  lemma {:induction false} ImagesAppend(a: seq<Upload>, b: seq<Upload>)
    ensures Images(a + b) == Images(a) + Images(b)
    decreases |b|
  {
    if |b| == 0 {
      assert a + b == a;
    } else {
      var init, last := b[..|b| - 1], b[|b| - 1];
      var tail := if IsImage(last) then [last] else [];
      assert (a + b)[..|a + b| - 1] == a + init;
      assert (a + b)[|a + b| - 1] == last;
      assert Images(a + b) == Images(a + init) + tail;
      assert Images(b) == Images(init) + tail;
      ImagesAppend(a, init);
    }
  }

  /** Each image is kept as many times as it was chosen, and nothing else is kept. */
  lemma {:induction false} ImagesCount(files: seq<Upload>, f: Upload)
    ensures multiset(Images(files))[f] == if IsImage(f) then multiset(files)[f] else 0
    decreases |files|
  {
    if |files| > 0 {
      var init, last := files[..|files| - 1], files[|files| - 1];
      assert files == init + [last];
      ImagesCount(init, f);
    }
  }

  /** One file is kept exactly when it is an image. */
  lemma ImagesOfOne(f: Upload)
    ensures Images([f]) == if IsImage(f) then [f] else []
  {
    assert [f][..0] == [];
  }

  /**
   * `addFiles`' state update: the images among the new files, in order, after
   * the existing ones, as many as fit under the cap; each gets a preview URL
   * (`previewOf` stands for `URL.createObjectURL`) and the key
   * `name-index-now`. A full list is left as it is.
   */
  function AddFiles(prev: seq<FileItem>, newFiles: seq<Upload>, now: int, previewOf: Upload -> string): (r: seq<FileItem>)
    ensures |prev| >= MaxImages ==> r == prev
    ensures |prev| <= MaxImages ==> |r| <= MaxImages
    ensures |prev| < MaxImages ==> |r| == |prev| + Min(|Images(newFiles)|, MaxImages - |prev|)
    ensures |prev| <= |r| <= |prev| + |Images(newFiles)| && r[..|prev|] == prev
    ensures forall i :: |prev| <= i < |r| ==>
      r[i].file == Images(newFiles)[i - |prev|] && IsImage(r[i].file)
      && r[i].preview == previewOf(r[i].file)
      && r[i].id == r[i].file.name + "-" + IntToString(i - |prev|) + "-" + IntToString(now)
  {
    var images := Images(newFiles);
    var remaining := MaxImages - |prev|;
    if remaining <= 0 then prev
    else
      var count := Min(|images|, remaining);
      prev + seq(count, k requires 0 <= k < count =>
        FileItem(images[k], previewOf(images[k]), images[k].name + "-" + IntToString(k) + "-" + IntToString(now)))
  }

  /** `newFiles.splice(index, 1)` for an index in range; `removeFile`'s update. */
  function Remove<T>(s: seq<T>, index: nat): (r: seq<T>)
    requires index < |s|
    ensures |r| == |s| - 1
    ensures forall i :: 0 <= i < index ==> r[i] == s[i]
    ensures forall i :: index <= i < |r| ==> r[i] == s[i + 1]
    ensures multiset(r) + multiset{s[index]} == multiset(s)
  {
    assert s == s[..index] + [s[index]] + s[index + 1..];
    s[..index] + s[index + 1..]
  }

  /** `newFiles.splice(index, 0, x)` for an index up to the length. */
  function Insert<T>(s: seq<T>, index: nat, x: T): (r: seq<T>)
    requires index <= |s|
    ensures |r| == |s| + 1 && r[index] == x
    ensures forall i :: 0 <= i < index ==> r[i] == s[i]
    ensures forall i :: index < i < |r| ==> r[i] == s[i - 1]
    ensures multiset(r) == multiset(s) + multiset{x}
  {
    assert s == s[..index] + s[index..];
    s[..index] + [x] + s[index..]
  }

  /** Take the element at `from` out and put it back in at `to`. */
  function Move<T>(s: seq<T>, from: nat, to: nat): (r: seq<T>)
    requires from < |s| && to < |s|
    ensures |r| == |s| && r[to] == s[from]
    ensures multiset(r) == multiset(s)
    ensures Remove(r, to) == Remove(s, from)
  {
    var rest := Remove(s, from);
    var r := Insert(rest, to, s[from]);
    RemoveInsert(rest, to, s[from]);
    r
  }

  lemma RemoveInsert<T>(s: seq<T>, index: nat, x: T)
    requires index <= |s|
    ensures Remove(Insert(s, index, x), index) == s
  {
    var r := Remove(Insert(s, index, x), index);
    assert |r| == |s|;
    forall i | 0 <= i < |s| ensures r[i] == s[i] {
    }
  }

  lemma InsertRemove<T>(s: seq<T>, index: nat)
    requires index < |s|
    ensures Insert(Remove(s, index), index, s[index]) == s
  {
    var r := Insert(Remove(s, index), index, s[index]);
    assert |r| == |s|;
    forall i | 0 <= i < |s| ensures r[i] == s[i] {
    }
  }

  /** Dragging the item back to where it came from undoes the move. */
  lemma MoveBack<T>(s: seq<T>, from: nat, to: nat)
    requires from < |s| && to < |s|
    ensures Move(Move(s, from, to), to, from) == s
  {
    var m := Move(s, from, to);
    assert Remove(m, to) == Remove(s, from);
    InsertRemove(s, from);
  }

  /**
   * `handleDragOver`: with an item being dragged to another position, move it
   * there and follow it; otherwise nothing changes.
   */
  function DragOver(files: seq<FileItem>, dragged: Option<nat>, index: nat): (r: (seq<FileItem>, Option<nat>))
    requires dragged.Some? ==> dragged.value < |files|
    requires index < |files|
    ensures dragged.None? || dragged == Some(index) ==> r == (files, dragged)
    ensures dragged.Some? && dragged.value != index ==>
      && r.1 == Some(index)
      && multiset(r.0) == multiset(files)
      && |r.0| == |files| && r.0[index] == files[dragged.value]
      && Remove(r.0, index) == Remove(files, dragged.value)
  {
    if dragged.None? || dragged.value == index then (files, dragged)
    else (Move(files, dragged.value, index), Some(index))
  }

  /**
   * `formatPreviewText`: a text of at most two words is shown as typed;
   * a longer one as its words two to a line, one space between the words of
   * a line.
   */
  method FormatPreviewText(value: string) returns (r: string)
    ensures |Words(value, IsJsSpace)| <= 2 ==> r == value
    ensures |Words(value, IsJsSpace)| > 2 ==> Split(r, '\n') == Pairs(Words(value, IsJsSpace))
  {
    var words := Words(value, IsJsSpace);
    if |words| <= 2 {
      return value;
    }
    var lines := PairUp(words);
    r := Join(lines, "\n");
    PairsHaveNoBreak(words);
    SplitJoin(lines, '\n');
  }

  /** A line of paired words holds no line break. */
  lemma PairsHaveNoBreak(words: seq<string>)
    requires forall i, k :: 0 <= i < |words| && 0 <= k < |words[i]| ==> !IsJsSpace(words[i][k])
    ensures forall i :: 0 <= i < |Pairs(words)| ==> '\n' !in Pairs(words)[i]
  {
    assert IsJsSpace('\n');
    forall i | 0 <= i < |Pairs(words)| ensures '\n' !in Pairs(words)[i] {
      PairsAt(words, i);
      if 2 * i + 1 < |words| {
        assert Pairs(words)[i] == words[2 * i] + " " + words[2 * i + 1];
        assert '\n' !in words[2 * i] && '\n' !in words[2 * i + 1];
      } else {
        assert '\n' !in words[2 * i];
      }
    }
  }

  /**
   * `handleStartJob`'s guard: without images, or without an enabled platform,
   * the store goes idle with the matching message and no job is made;
   * otherwise the store follows a new queued job named after the clock.
   */
  method StartJob(store: Store, fileCount: nat, enabledPlatforms: seq<bool>, now: int,
                  noImagesMessage: string, noPlatformMessage: string) returns (started: Option<string>)
    modifies store
    ensures fileCount == 0 ==>
      && started.None?
      && store.Snap() == old(store.Snap()).(status := Idle, errorMessage := Some(noImagesMessage))
    ensures fileCount > 0 && (forall i :: 0 <= i < |enabledPlatforms| ==> !enabledPlatforms[i]) ==>
      && started.None?
      && store.Snap() == old(store.Snap()).(status := Idle, errorMessage := Some(noPlatformMessage))
    ensures fileCount > 0 && (exists i :: 0 <= i < |enabledPlatforms| && enabledPlatforms[i]) ==>
      && started == Some("job_" + IntToString(now))
      && store.Snap() == Snapshot(Queued, started, map[], [], None)
      && store.HasActiveJob()
  {
    if fileCount == 0 {
      store.UpdateStatus(Idle, Some(map[]), Message(noImagesMessage));
      return None;
    }
    var hasEnabledPlatform := exists i :: 0 <= i < |enabledPlatforms| && enabledPlatforms[i];
    if !hasEnabledPlatform {
      store.UpdateStatus(Idle, Some(map[]), Message(noPlatformMessage));
      return None;
    }
    var jobId := "job_" + IntToString(now);
    store.SetJob(jobId, Queued);
    return Some(jobId);
  }

  /** The font-size input's bounds for a unit: 12 to 200 pixels, 10 to 300 percent. */
  function FontSizeBounds(unit: string): (bounds: (int, int))
    ensures bounds.0 <= bounds.1
  {
    if unit == "px" then (12, 200) else (10, 300)
  }

  /**
   * The font-size input's change handler: a value that is not a number
   * changes nothing; any other is clamped into the unit's bounds.
   */
  function FontSizeInput(unit: string, current: int, next: Option<int>): (size: int)
    ensures next.None? ==> size == current
    ensures next.Some? ==> FontSizeBounds(unit).0 <= size <= FontSizeBounds(unit).1
    ensures next.Some? && FontSizeBounds(unit).0 <= next.value <= FontSizeBounds(unit).1 ==> size == next.value
    ensures unit == "px" && next.Some? ==> 12 <= size <= 200
    ensures unit != "px" && next.Some? ==> 10 <= size <= 300
  {
    match next
    case None => current
    case Some(v) => Clamp(v, FontSizeBounds(unit).0, FontSizeBounds(unit).1)
  }
}
