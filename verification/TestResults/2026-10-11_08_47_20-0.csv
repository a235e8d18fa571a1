TestResult.DisplayName,TestResult.Outcome,TestResult.Duration,TestResult.ResourceCount,RandomSeed
Validators.MaskedPhoneAccepted (correctness),Passed,00:00:00.7428840,1683930,3
