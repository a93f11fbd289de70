TestResult.DisplayName,TestResult.Outcome,TestResult.Duration,TestResult.ResourceCount,RandomSeed
Scratch.VarB (correctness),Passed,00:00:00.1566329,110131,0
Scratch.VarB (well-formedness),Passed,00:00:00.1447369,73199,0
