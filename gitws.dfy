/**
  The canonical manifest model the importer produces.  Each record holds the
  keyword arguments the importer hands to the model's constructor; a field the
  importer does not pass is `None`.  Whether a constructor accepts its
  arguments is decided by the model's own validation rules, which are not part
  of this model: they are the predicates of `Models`.
*/
module Gitws {
  import opened Wrappers
  import opened Xml

  datatype FileRef = FileRef(src: Option<string>, dest: Option<string>)

  /** `urlBase` is the model's `url-base` argument. */
  datatype Remote = Remote(name: Option<string>, urlBase: Option<string>)

  datatype ProjectSpec = ProjectSpec(
    name: Option<string>,
    path: Option<string>,
    remote: Option<string>,
    revision: Option<string>,
    copyfiles: seq<FileRef>,
    linkfiles: seq<FileRef>,
    recursive: bool)

  datatype Defaults = Defaults(remote: Option<string>, revision: Option<string>)

  datatype ManifestSpec = ManifestSpec(defaults: Defaults, remotes: seq<Remote>, dependencies: seq<ProjectSpec>)

  /** The validation of each constructor: true when it accepts its arguments,
      false when it raises a validation error. */
  datatype Models = Models(
    fileRef: FileRef -> bool,
    remote: Remote -> bool,
    project: ProjectSpec -> bool,
    defaults: Defaults -> bool,
    manifest: ManifestSpec -> bool)

  /** The detail of a `ManifestError`: a message, or the element whose
      serialisation the message consists of. */
  datatype Detail = Message(text: string) | Fragment(element: Element)

  datatype LoadError =
    | ManifestNotFound(path: string)
    | ManifestError(path: string, detail: Detail)
}
