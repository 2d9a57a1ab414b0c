/** The parts of xunit's `ITestCase` that the orderers look at. */
module TestCases {
  import opened Wrappers
  import opened Numerals

  /** `TestOrderAttribute.TraitName`: the trait that carries an explicit order. */
  const TestOrderTraitName: string := "TestOrder"

  /** `ISourceInformation`: where the test method is declared; the line number may be unknown. */
  datatype SourceInformation = SourceInformation(fileName: string, lineNumber: Option<Int32>)

  /** `ITestCase`: `traits` maps a trait name to its values in declaration order;
      `sourceInformation` may be null. */
  datatype TestCase = TestCase(
    displayName: string,
    traits: map<string, seq<string>>,
    sourceInformation: Option<SourceInformation>)
}
