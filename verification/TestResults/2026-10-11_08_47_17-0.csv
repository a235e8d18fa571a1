TestResult.DisplayName,TestResult.Outcome,TestResult.Duration,TestResult.ResourceCount,RandomSeed
Validators.MaskedPhoneAccepted (correctness),Passed,00:00:00.2991997,287346,2
