/** The records of svm-types that the codecs carry. */
module SvmTypes {
  import opened Ints
  import opened Utf8

  /** `svm_types::Address`: 20 bytes. */
  type Address = s: seq<byte> | |s| == 20 witness seq(20, _ => 0)

  datatype TemplateAddr = TemplateAddr(inner: Address)

  datatype AuthorAddr = AuthorAddr(inner: Address)

  datatype App = App(version: u32, name: RustString, template: TemplateAddr)

  datatype SpawnApp = SpawnApp(app: App, ctorName: RustString, calldata: seq<byte>)

  /** `data` stands for the declared data layout, whose structure is not part of this model. */
  datatype AppTemplate = AppTemplate(version: u32, name: RustString, code: seq<byte>, data: seq<nat>)
}
