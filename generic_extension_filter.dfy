/** GenericExtensionFilter: a file-name filter that accepts the names ending
    with a fixed extension, set once when the filter is built. */
module GenericExtensionFilter {

  predicate EndsWith(name: string, ext: string) {
    |ext| <= |name| && name[|name| - |ext|..] == ext
  }

  class GenericExtensionFilter {
    const ext: string

    constructor (ext: string)
      ensures this.ext == ext
    {
      this.ext := ext;
    }

    /** accept(dir, name): the directory plays no part. */
    predicate Accept(dir: string, name: string)
      ensures Accept(dir, name) <==> exists prefix :: name == prefix + ext
    {
      if EndsWith(name, ext) then
        assert name == name[..|name| - |ext|] + ext;
        true
      else
        false
    }
  }

  /** Any name made of some prefix followed by the extension is accepted. */
  lemma AcceptsSuffixed(f: GenericExtensionFilter, dir: string, prefix: string)
    ensures f.Accept(dir, prefix + f.ext)
  {
    assert (prefix + f.ext)[|prefix|..] == f.ext;
  }

  /** The directory never affects the result. */
  lemma DirectoryIrrelevant(f: GenericExtensionFilter, d1: string, d2: string, name: string)
    ensures f.Accept(d1, name) == f.Accept(d2, name)
  {
  }

  /** An empty extension accepts every name. */
  lemma EmptyAcceptsAll(f: GenericExtensionFilter, dir: string, name: string)
    requires f.ext == ""
    ensures f.Accept(dir, name)
  {
    assert name == name + "";
  }

  /** A name equal to the extension is accepted, a shorter one rejected. */
  lemma ByLength(f: GenericExtensionFilter, dir: string, name: string)
    ensures name == f.ext ==> f.Accept(dir, name)
    ensures |name| < |f.ext| ==> !f.Accept(dir, name)
  {
    assert f.ext == "" + f.ext;
  }
}
