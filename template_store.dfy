/** Where the mail service finds a template and what `send_email_html` does
    with it. The file system is a map from path to what reading that path
    gives; the environment override of the template directory and the
    directory of the service's own module are parameters. */
module TemplateStore {
  import opened Wrappers
  import opened Text
  import opened Variables
  import opened Renderer

  /** What `open(path).read()` does with an existing path: it returns the
      text, or it raises (a directory, no permission, bad UTF-8). */
  datatype FileState = Readable(content: string) | Unreadable

  /** Every path that `os.path.exists` accepts, with what reading it gives. */
  type FileSystem = map<string, FileState>

  /** `os.path.join(a, b)` on POSIX: an absolute `b` replaces `a`, and a
      separator is inserted only when `a` is non-empty and does not already
      end in one. */
  function PathJoin(a: string, b: string): (p: string)
    ensures |b| <= |p| && p[|p| - |b|..] == b
    ensures (|b| > 0 && b[0] == '/') || a <= p
  {
    if |b| > 0 && b[0] == '/' then b
    else if a == [] || a[|a| - 1] == '/' then a + b
    else a + "/" + b
  }

  /** The template directory: the override when it is set, otherwise the
      `templates` directory beside the module. */
  function TemplatesDir(overrideDir: Option<string>, moduleDir: string): string
  {
    match overrideDir
    case Some(dir) => dir
    case None => PathJoin(moduleDir, "templates")
  }

  /** The file a template name is read from. */
  function TemplatePath(overrideDir: Option<string>, moduleDir: string, name: string): (p: string)
    ensures |name| + 5 <= |p| && p[|p| - |name + ".html"|..] == name + ".html"
  {
    PathJoin(TemplatesDir(overrideDir, moduleDir), name + ".html")
  }

  /** `_load_template`: the text of `<dir>/<name>.html`, or None when that
      file does not exist or cannot be read. */
  function LoadTemplate(fs: FileSystem, overrideDir: Option<string>, moduleDir: string, name: string): (r: Option<string>)
    ensures r.Some? <==> TemplatePath(overrideDir, moduleDir, name) in fs
                         && fs[TemplatePath(overrideDir, moduleDir, name)].Readable?
    ensures r.Some? ==> r.value == fs[TemplatePath(overrideDir, moduleDir, name)].content
  {
    var path := TemplatePath(overrideDir, moduleDir, name);
    if path !in fs then None
    else match fs[path]
      case Readable(content) => Some(content)
      case Unreadable => None
  }

  /** A relative directory and a plain name give `<dir>/<name>.html`. */
  lemma TemplatePathShape(dir: string, moduleDir: string, name: string)
    requires dir != [] && dir[|dir| - 1] != '/'
    requires name == [] || name[0] != '/'
    ensures TemplatePath(Some(dir), moduleDir, name) == dir + "/" + name + ".html"
  {
  }

  /** The bundled directory is `<module dir>/templates`. */
  lemma BundledPathShape(moduleDir: string, name: string)
    requires moduleDir != [] && moduleDir[|moduleDir| - 1] != '/'
    requires name == [] || name[0] != '/'
    ensures TemplatePath(None, moduleDir, name) == moduleDir + "/templates/" + name + ".html"
  {
    var dir := moduleDir + "/templates";
    assert PathJoin(moduleDir, "templates") == dir;
    assert dir[|dir| - 1] == 's';
    assert PathJoin(dir, name + ".html") == dir + "/" + (name + ".html");
    assert dir + "/" + (name + ".html") == moduleDir + "/templates/" + name + ".html";
  }

  /** With the override set, the result depends only on the one file under
      the override directory: not on the module directory, and not on any
      other file, in particular not on the bundled template. */
  lemma OverrideConsultsOnlyItsDirectory(fs1: FileSystem, fs2: FileSystem, dir: string,
                                         moduleDir1: string, moduleDir2: string, name: string)
    requires var p := PathJoin(dir, name + ".html");
             (p in fs1 <==> p in fs2) && (p in fs1 ==> fs1[p] == fs2[p])
    ensures LoadTemplate(fs1, Some(dir), moduleDir1, name) == LoadTemplate(fs2, Some(dir), moduleDir2, name)
  {
  }

  /** No fallback: a template missing under the override directory is not
      found, whatever the bundled directory holds. */
  lemma NoFallbackToBundled(fs: FileSystem, dir: string, moduleDir: string, name: string)
    requires PathJoin(dir, name + ".html") !in fs
    ensures LoadTemplate(fs, Some(dir), moduleDir, name) == None
  {
  }

  /** Writing a template file and then loading that name reads the text
      back. */
  lemma LoadAfterStore(fs: FileSystem, overrideDir: Option<string>, moduleDir: string, name: string, text: string)
    ensures LoadTemplate(fs[TemplatePath(overrideDir, moduleDir, name) := Readable(text)], overrideDir, moduleDir, name)
         == Some(text)
  {
  }

  /** test_load_custom_html_template and test_load_custom_html_override_default:
      a file written under the override directory is what loading its name
      returns, whatever the bundled directory holds for that name. */
  lemma CustomTemplateTest(fs: FileSystem, dir: string, moduleDir: string, name: string, content: string)
    requires dir != [] && dir[|dir| - 1] != '/'
    requires name == [] || name[0] != '/'
    ensures LoadTemplate(fs[dir + "/" + name + ".html" := Readable(content)], Some(dir), moduleDir, name) == Some(content)
  {
    TemplatePathShape(dir, moduleDir, name);
    LoadAfterStore(fs, Some(dir), moduleDir, name, content);
  }

  /** The `ValueError` raised for a missing or empty template. */
  datatype MailError = TemplateNotFound(message: string)

  function NotFoundMessage(name: string): string
  {
    "Template '" + name + "' not found"
  }

  /** The message `send_email_html` hands to SMTP: subject, sender,
      recipient and the rendered HTML body. */
  datatype HtmlMail = HtmlMail(subject: string, sender: string, recipient: string, html: string)

  /** Python's truth test on the loaded template: None and "" are false. */
  predicate Usable(t: Option<string>)
  {
    t.Some? && t.value != ""
  }

  /** `send_email_html` up to the SMTP hand-off: a missing or empty template
      is refused before anything is rendered, otherwise the template is
      rendered with the variables and branding and addressed from the
      service's SMTP user to the recipient. */
  method SendEmailHtml(fs: FileSystem, overrideDir: Option<string>, moduleDir: string, smtpUser: string,
                       templateName: string, variables: Vars, subject: string, recipient: string,
                       branding: BrandingConfig)
    returns (r: Result<HtmlMail, MailError>)
    ensures r.Failure? <==> !Usable(LoadTemplate(fs, overrideDir, moduleDir, templateName))
    ensures r.Failure? ==> r.error == TemplateNotFound(NotFoundMessage(templateName))
    ensures r.Success? ==>
      var t := LoadTemplate(fs, overrideDir, moduleDir, templateName).value;
      r.value == HtmlMail(subject, smtpUser, recipient, Render(t, variables, branding))
  {
    var templateContent := LoadTemplate(fs, overrideDir, moduleDir, templateName);
    if templateContent.None? || templateContent.value == "" {
      return Failure(TemplateNotFound(NotFoundMessage(templateName)));
    }
    var html := RenderTemplate(templateContent.value, variables, branding);
    r := Success(HtmlMail(subject, smtpUser, recipient, html));
  }

  /** A stored template without `{{` is sent exactly as stored. */
  lemma PlainTemplateSentVerbatim(fs: FileSystem, overrideDir: Option<string>, moduleDir: string,
                                  name: string, variables: Vars, branding: BrandingConfig)
    requires Usable(LoadTemplate(fs, overrideDir, moduleDir, name))
    requires !Contains(LoadTemplate(fs, overrideDir, moduleDir, name).value, "{{")
    ensures var t := LoadTemplate(fs, overrideDir, moduleDir, name).value;
            Render(t, variables, branding) == t
  {
    var t := LoadTemplate(fs, overrideDir, moduleDir, name).value;
    var all := RenderVariables(variables, branding);
    RenderWithoutTokens(t, all, |all|);
  }
}
