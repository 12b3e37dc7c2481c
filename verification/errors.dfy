/** The ways loading a Prism file fails. The first three are the parser's own
    `PrismFileLoadError`; the others are the Python errors its lookups raise. */
module Errors {

  datatype LoadError =
    | NotPrismFile                          // root tag is not GraphPadPrismFile
    | UnsupportedVersion                    // PrismXMLVersion is not "5.00"
    | UnsupportedTableType(tableType: string)
    | MissingAttribute(name: string)        // KeyError on an attribute lookup
    | MissingTitle                          // find('Title') found nothing
    | NoColumns                             // max() over a table without subcolumns
}
