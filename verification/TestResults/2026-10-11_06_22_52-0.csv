TestResult.DisplayName,TestResult.Outcome,TestResult.Duration,TestResult.ResourceCount,RandomSeed
Scratch.VarA (correctness),Failed,00:00:00.5947037,2058449,0
