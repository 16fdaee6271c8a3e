/** The application shell: it holds the one open document path and shows
    either the document viewer or the file selector; opening and closing
    a document each ask the host to resize the window. */
module AppShell {
  import opened Common
  import FileSelector

  const InitialWidth: nat := 800
  const InitialHeight: nat := 600
  const ViewerWidth: nat := 1200
  const ViewerHeight: nat := 900

  /** The observable effects of the shell's handlers, in the order they happen. */
  datatype Effect =
    | FilePathSet(value: Option<string>)
    | ResizeRequested(width: nat, height: nat)
    | ResizeFailureLogged

  /** Which child component the shell renders. */
  datatype View = ViewerShown(filePath: string) | SelectorShown

  /** The shell shows the viewer for a truthy path and the selector otherwise. */
  function CurrentView(filePath: Option<string>): (v: View)
    ensures v.ViewerShown? <==> filePath.Some? && Truthy(filePath.value)
    ensures v.SelectorShown? <==> !v.ViewerShown?
    ensures v.ViewerShown? ==> v.filePath == filePath.value
  {
    if filePath.Some? && Truthy(filePath.value) then ViewerShown(filePath.value) else SelectorShown
  }

  /** One awaited `resize_window` call: the request, then, if the host
      rejected it, the logged error (the error never propagates). */
  function ResizeEffects(width: nat, height: nat, succeeded: bool): (r: seq<Effect>)
    ensures |r| >= 1 && r[0] == ResizeRequested(width, height)
    ensures forall i :: 1 <= i < |r| ==> r[i] == ResizeFailureLogged
    ensures |r| == if succeeded then 1 else 2
  {
    [ResizeRequested(width, height)] + (if succeeded then [] else [ResizeFailureLogged])
  }

  class App {
    /** The `filePath` state cell. */
    var filePath: Option<string>
    /** Everything the handlers have done so far, oldest first. */
    var effects: seq<Effect>

    /** A fresh shell has no document open and shows the selector. */
    constructor ()
      ensures filePath == None && effects == []
      ensures CurrentView(filePath) == SelectorShown
    {
      filePath := None;
      effects := [];
    }

    /** `handleFileSelected`: store the path first, then ask for the viewer
        size; a failed resize is logged and leaves the path in place. */
    method HandleFileSelected(path: string, resizeSucceeded: bool)
      modifies this
      ensures filePath == Some(path)
      ensures effects == old(effects) + [FilePathSet(Some(path))] + ResizeEffects(ViewerWidth, ViewerHeight, resizeSucceeded)
    {
      filePath := Some(path);
      effects := effects + [FilePathSet(filePath)];
      effects := effects + [ResizeRequested(ViewerWidth, ViewerHeight)];
      if !resizeSucceeded {
        effects := effects + [ResizeFailureLogged];
      }
    }

    /** `handleClose`: clear the path whatever it was, then ask for the
        initial size; a failed resize is logged and the path stays cleared. */
    method HandleClose(resizeSucceeded: bool)
      modifies this
      ensures filePath == None
      ensures CurrentView(filePath) == SelectorShown
      ensures effects == old(effects) + [FilePathSet(None)] + ResizeEffects(InitialWidth, InitialHeight, resizeSucceeded)
    {
      filePath := None;
      effects := effects + [FilePathSet(filePath)];
      effects := effects + [ResizeRequested(InitialWidth, InitialHeight)];
      if !resizeSucceeded {
        effects := effects + [ResizeFailureLogged];
      }
    }
  }

  /** A path the selector forwards always brings up the viewer for that
      path, once the shell has stored it. */
  lemma ForwardedPathOpensViewer(outcome: FileSelector.DialogOutcome)
    requires FileSelector.HandleOpenFile(outcome).Forwarded?
    ensures CurrentView(Some(FileSelector.HandleOpenFile(outcome).path)) == ViewerShown(FileSelector.HandleOpenFile(outcome).path)
  {
    FileSelector.ForwardedPathIsTruthy(outcome);
  }
}
