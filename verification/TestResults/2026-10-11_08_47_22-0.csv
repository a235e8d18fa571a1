TestResult.DisplayName,TestResult.Outcome,TestResult.Duration,TestResult.ResourceCount,RandomSeed
Validators.MaskedPhoneAccepted (correctness),Passed,00:00:00.3470799,317292,4
