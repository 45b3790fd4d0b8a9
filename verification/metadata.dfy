/** The slice of a Nutch parse the filters write to: the page's HTML title and its content metadata. */
module Metadata {

  /** `Parse.getData()`: the title, and the multi-valued metadata as (name, value) entries in order. */
  class ParseData {
    const title: string
    var contentMeta: seq<(string, string)>

    constructor (title: string, contentMeta: seq<(string, string)>)
      ensures this.title == title && this.contentMeta == contentMeta
    {
      this.title := title;
      this.contentMeta := contentMeta;
    }

    /** `Metadata.add(name, value)`: one more value under `name`, after the existing ones. */
    method Add(name: string, value: string)
      modifies this
      ensures contentMeta == old(contentMeta) + [(name, value)]
    {
      contentMeta := contentMeta + [(name, value)];
    }
  }
}
