/**
 The audio uploader: a click-to-browse file input and a drag-and-drop target
 that hand at most one file up to the page, and a view that shows either the
 upload prompt or the name of the accepted file.
 */
module Uploader {
  import opened Js

  /** A browser `File`, reduced to the two properties the page reads. */
  datatype File = File(name: string, mimeType: string)

  /** The MIME-type prefix a dropped file must carry to be accepted. */
  const AudioPrefix: string := "audio/"

  /** What the drop zone shows. */
  datatype View = UploadPrompt | FileReady(name: string)

  /** True when a dropped file would pass the drop filter. */
  predicate IsAudio(f: File) {
    StartsWith(f.mimeType, AudioPrefix)
  }

  /** `files?.[0]`: the first entry of a possibly-null file list. */
  function FirstFile(files: Option<seq<File>>): Option<File> {
    match files
    case None => None
    case Some(fs) => if |fs| > 0 then Some(fs[0]) else None
  }

  /**
   The file a browse selection hands to the page: the first file of the list
   whenever there is one, whatever its type. The input's `accept` attribute is
   only a hint to the picker and is not checked here.
   */
  function OnBrowse(files: Option<seq<File>>): (picked: Option<File>)
    ensures picked.Some? <==> files.Some? && |files.value| > 0
    ensures picked.Some? ==> picked.value == files.value[0]
  {
    FirstFile(files)
  }

  /**
   The file a drop hands to the page: the first file of the list, and only
   when its MIME type starts with "audio/"; otherwise nothing is handed up.
   */
  function OnDrop(files: Option<seq<File>>): (picked: Option<File>)
    ensures picked.Some? <==> files.Some? && |files.value| > 0 && IsAudio(files.value[0])
    ensures picked.Some? ==> picked.value == files.value[0]
  {
    var first := FirstFile(files);
    if first.Some? && IsAudio(first.value) then first else None
  }

  /** The drop zone's content: the prompt while no file is held, the file's name once one is. */
  function Display(audioFile: Option<File>): (v: View)
    ensures v.FileReady? <==> audioFile.Some?
    ensures v.FileReady? ==> v.name == audioFile.value.name
  {
    match audioFile
    case None => UploadPrompt
    case Some(f) => FileReady(f.name)
  }

  /** A drop accepts nothing that a browse would not: whatever a drop hands up,
      a browse of the same list hands up too, and for an audio first file they agree. */
  lemma DropRefinesBrowse(files: Option<seq<File>>)
    ensures OnDrop(files).Some? ==> OnDrop(files) == OnBrowse(files)
    ensures OnBrowse(files).Some? && IsAudio(OnBrowse(files).value) ==> OnDrop(files) == OnBrowse(files)
    ensures OnBrowse(files).Some? && !IsAudio(OnBrowse(files).value) ==> OnDrop(files) == None
  {
  }

  /** An empty or missing file list never reaches the page, whichever gesture delivered it. */
  lemma EmptyListHandsUpNothing(files: Option<seq<File>>)
    requires files.None? || files.value == []
    ensures OnBrowse(files) == None && OnDrop(files) == None
  {
  }

  /** Only the head of the list matters: files after the first never change what is handed up. */
  lemma OnlyFirstFileMatters(f: File, rest1: seq<File>, rest2: seq<File>)
    ensures OnBrowse(Some([f] + rest1)) == OnBrowse(Some([f] + rest2)) == Some(f)
    ensures OnDrop(Some([f] + rest1)) == OnDrop(Some([f] + rest2))
  {
  }

  /** A file whose type is "audio/" followed by anything is accepted on drop. */
  lemma AudioSubtypeAccepted(name: string, subtype: string, rest: seq<File>)
    ensures OnDrop(Some([File(name, AudioPrefix + subtype)] + rest)) == Some(File(name, AudioPrefix + subtype))
  {
    StartsWithAppend(AudioPrefix, subtype);
  }
}
